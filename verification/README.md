# mmt ledger core in Dafny

This project models the core of the "Magic Money Tree" ledger. That is a
Rails application where a group pools money in several coins and records
every movement as a system transaction. Each system transaction carries
double-entry events: asset, liability and equity entries in a coin's minor
units, each priced by a BTC rate. The model covers three parts:

- **Transactions** (`transactions.dfy`, `app/models/transactions/base.rb`):
  - the seven transaction types;
  - the rounded BTC sum of the events (`events_sum_display`) and the rule that it is zero;
  - the lookup of the latest other transaction with the same source or destination;
  - the previous-transaction chain check;
  - the exchange checks `not_fiat_to_fiat`, `rates_match` and `values_match`;
  - the registered validations, run in declaration order on a `Transaction` object whose `errors` list they append to.
- **Coins** (`coin.dfy`, `app/models/coin.rb`):
  - coin validations, including the read-only code;
  - `crypto?` and `fiat?`;
  - `assets` and `assets_display`;
  - the live rate functions `btc_rate`, `crypto_btc_rate`, `fiat_btc_rate` and `value`, computed from rate tables passed in as values;
  - `coins_by_bittrex`, with Ruby's `split("-").last`;
  - the unregistered `ensure_subdivision_multiple_of_ten`.
- **Members** (`member.dfy`, `app/models/member.rb`):
  - member validations: username, slug, OTP delivery method, the phone-number pattern and the country code paired with it, and email against username;
  - the `adjust_slug` callback;
  - `full_phone_number`;
  - the two-factor predicates.

Shared pieces:

- `decimal.dfy` holds:
  - powers of ten;
  - `Utils.to_decimal` and `Utils.to_integer`;
  - BigDecimal's default rounding mode, ROUND_HALF_UP, where ties go away from zero.
- `validations.dfy` holds the pieces of Rails validation the models use:
  - `blank?`;
  - the `\A[a-zA-Z0-9_\.]*\Z` format, in which `\Z` also accepts one trailing newline;
  - the `(attribute, message)` error records.
- `wrappers.dfy` holds `Option` and `Result`.

How the model represents the application:

- A Ruby `nil` is `None`.
- A Ruby exception is an explicit outcome:
  - a transaction check returns `Raise`;
  - a validation run returns `Raised`, carrying the errors collected before the exception;
  - a rate lookup returns a `RateError`.
- Database state is passed in as values: the stored coins, the stored members, the candidate transaction rows, and the list of a coin's asset-event amounts (`assetEvents: seq<int>`), which `Coins.Assets` sums.
- A validation run is a function from a record's attributes to its error list: `Transactions.ValidationOutcome`, `Members.MemberErrors` and `Coins.CoinErrors`. Transaction and Member have a `Validate` method proved to produce that list; Coin's run is the function `CoinErrors` itself.

`Utils` is not part of this model. `Utils.to_decimal(x, s)` is taken to be
`x / 10^s`. `Utils.to_integer(x, s)` is taken to be `x · 10^s` truncated
toward zero, with `s` allowed to be negative. `Decimal.ToIntegerToDecimal`
proves the round trip these two definitions give.

The transaction types are spelled `SystemWithdrawl` and `MemberWithdrawl`,
as in the code, not "Withdrawal". Likewise, only `correct_previous_transaction`
and `system_sum_to_zero` are registered as validations in the code, so
`Transactions.ValidationOutcome` runs only these two (after the type and
initiator checks). The three exchange checks are modelled as separate
methods on `Transaction`.

## Model

| member | source | states |
|---|---|---|
| Decimal.ToIntegerToDecimal | app/models/transactions/base.rb:119-126 | converting whole minor units to a decimal and back gives the same integer, for every scale, including negative scales |
| Decimal.Truncate | app/models/transactions/base.rb:119-126 | the integer part toward zero: at most the value and above value − 1 for non-negative values, and the mirror bounds for negative values |
| Decimal.RoundHalfUp | app/models/transactions/base.rb:86 | the result lies on the 10^-n grid, and its distance from the input is at most half a grid step |
| Decimal.HalfUpUnitsUnique | app/models/transactions/base.rb:86 | exactly one grid point satisfies the half-up rule (ties away from zero), so the rounding is well defined |
| Decimal.RoundHalfUpNegate | app/models/transactions/base.rb:86 | rounding commutes with negation, which is what half-up (away from zero) means for negative entries |
| Decimal.RoundHalfUpOnGrid | app/models/transactions/base.rb:86 | a value already on the grid rounds to itself |
| Decimal.RoundHalfUpIdempotent | app/models/transactions/base.rb:86 | rounding twice equals rounding once |
| Decimal.RoundHalfUpMonotone | app/models/transactions/base.rb:109-110 | rounding preserves order |
| Decimal.SameRoundingClose | app/models/transactions/base.rb:109-110 | two values with the same rounding differ by less than one grid step |
| Validations.WordFormat | app/models/coin.rb:39 | a string passes exactly when every character is a word character, except that the last one may be a newline |
| Validations.WordFormatShape | app/models/coin.rb:39 | the format accepts exactly the word-character strings, optionally followed by one final newline, and never a newline elsewhere |
| Coins.FiatIsNotCrypto | app/models/coin.rb:52-58 | every coin is exactly one of crypto or fiat |
| Coins.Assets | app/models/coin.rb:66-68 | the sum of the asset-event amounts: non-negative when every amount is, and the amount itself for a single event |
| Coins.AssetsAppend | app/models/coin.rb:66-68 | the sum over two lists of events is the sum of their sums |
| Coins.AssetsDisplay | app/models/coin.rb:66-72 | the displayed assets are exactly the summed minor units divided by 10^subdivision, and convert back to those minor units |
| Coins.CoinErrors | app/models/coin.rb:38-46 | code "has already been taken" exactly when another coin has the code; code "is invalid" exactly when the code fails the format; code "can't be blank" exactly when blank and subdivision exactly when missing; slug taken exactly when another coin has the slug; subdivision "is not a number" exactly when missing and "must be greater than or equal to 0" exactly when negative; assets likewise exactly when negative; no other attribute is reported |
| Coins.CoinValidIff | app/models/coin.rb:38-46 | a coin is valid exactly when its code is present, unique, of the word format, its slug is unique, its subdivision is a non-negative number and its assets are non-negative |
| Coins.SaveUpdate | app/models/coin.rb:36 | an update never changes a saved coin's code; all other attributes take the update's values |
| Coins.EnsureSubdivisionMultipleOfTen | app/models/coin.rb:136-140 | as written: an error is added exactly when the subdivision is present and divisible by ten |
| Coins.SubdivisionCheckInverted | app/models/coin.rb:136-140 | the as-written check rejects 10 and 0 and accepts 8 |
| Coins.SubdivisionMultipleOfTen | app/models/coin.rb:136-140 | corrected: an error is added exactly when the subdivision is present and not divisible by ten |
| Coins.SubdivisionMultipleOfTenAccepts | app/models/coin.rb:136-140 | the corrected check accepts every multiple of ten, rejects every other present value, and accepts a missing subdivision |
| Coins.FindByName | app/models/coin.rb:125-127 | the first non-nil market whose name matches, or none when no market matches |
| Coins.Compact | app/models/coin.rb:125-131 | a market is kept exactly when it appears non-nil in the input, and the result is no longer than the input |
| Coins.CompactAppend | app/models/coin.rb:125-131 | dropping nils keeps order: compacting two lists joined is the two compacted lists joined |
| Coins.CompactSingleton | app/models/coin.rb:125-131 | one market is kept, one nil is dropped |
| Coins.FindInCompact | app/models/coin.rb:125-127 | the search over the compacted list finds nothing exactly when no non-nil market has the name |
| Coins.CryptoBtcRate | app/models/coin.rb:121-128 | BTC's rate is 1; any other crypto coin's rate exists exactly when some market is named "BTC-code", and is the Bid of the first such market; otherwise the error names the missing market |
| Coins.FiatBtcRate | app/models/coin.rb:103-107 | a rate exists exactly when the quote under the ISO code (or the coin's own code) is present and non-zero, and then the rate times that quote is 1; otherwise the error says whether the quote is missing or zero |
| Coins.BtcRate | app/models/coin.rb:93-95 | a crypto coin with code BTC has rate 1; another crypto coin has a rate exactly when its market exists, and that rate is the Bid of the first market named "BTC-code" (crypto_btc_rate); a fiat coin has one exactly when its own quote is usable, and the rate times that quote is 1 (fiat_btc_rate) |
| Coins.Value | app/models/coin.rb:88-90 | a value exists exactly when the BTC rate does and the currency's quote is usable, and it is then the BTC rate times that quote; a missing BTC rate is passed on as the same error |
| Coins.ValueInOwnCurrency | app/models/coin.rb:88-107 | a fiat coin valued in its own currency is worth exactly 1 whenever its quote is usable |
| Coins.ValueOfBtc | app/models/coin.rb:88-95 | BTC valued in a currency is exactly that currency's quote, available exactly when the quote is usable |
| Coins.Split | app/models/coin.rb:132 | the result is the raw "-" fields with the trailing empty ones removed: a prefix of the fields, ending in a non-empty field, with only empty fields dropped |
| Coins.LastField | app/models/coin.rb:132 | the last field, when there is one, is non-empty and contains no "-"; there is none exactly when the name is made of dashes only |
| Coins.LastFieldAfterDash | app/models/coin.rb:132 | for any prefix, a name ending in "-" and a non-empty dash-free field gives back exactly that field |
| Coins.FieldsEmptyIffDashes | app/models/coin.rb:132 | every "-" field of a name is empty exactly when the name holds nothing but dashes |
| Coins.JoinFields | app/models/coin.rb:132 | joining the raw fields with "-" gives back the market name |
| Coins.CoinsByBittrex | app/models/coin.rb:130-134 | one entry per non-nil market, in order, each being the last "-" field of that market's name |
| Coins.MarketNameRoundTrip | app/models/coin.rb:126-132 | for a non-empty code without "-", the market name "BTC-code" lists back exactly that code |
| Transactions.TypeErrors | app/models/transactions/base.rb:76-77 | no error exactly when the type is one of TYPES; "can't be blank" exactly when it is blank; "is not included in the list" exactly when it is missing or not in TYPES; only the type attribute is reported |
| Transactions.IsOfType | app/models/transactions/base.rb:58-69 | a record for which a generated predicate holds has that type name, and passes the type rule when the name is in TYPES |
| Transactions.TypePredicates | app/models/transactions/base.rb:58-77 | the seven TYPES are distinct; the type rule passes exactly when one of the type predicates holds, and at most one holds |
| Transactions.Inject | app/models/transactions/base.rb:85-88 | the fold gives the running total plus the signed sum of the events (equity and liability added, asset subtracted) |
| Transactions.EventsSumDisplay | app/models/transactions/base.rb:84-89 | the displayed sum, grouped as equity, liability, asset, is the signed sum of all the events |
| Transactions.SumByPermutation | app/models/transactions/base.rb:84-89 | the sum does not depend on the order of the events |
| Transactions.EventsSumDisplayIsSignedSum | app/models/transactions/base.rb:84-89 | the displayed sum is the signed sum over all events, whatever order they are grouped or stored in |
| Transactions.SignedSumOnGrid | app/models/transactions/base.rb:84-89 | the sum is a whole number of 10^-8 BTC |
| Transactions.SumZeroIffUnitsZero | app/models/transactions/base.rb:93-96 | the sum is zero exactly when the integer sum of the rounded satoshi amounts is zero, so the check is exact arithmetic |
| Transactions.MirroredEventsBalance | app/models/transactions/base.rb:93-96 | events matched by asset events of equal entry, rate and subdivision always pass the zero-sum check |
| Transactions.Latest | app/models/transactions/base.rb:131-137 | the row found is of this class (or any class, from the base class), is not this transaction, has the given endpoint, and is no older than any other such row; no row is found exactly when none qualifies |
| Transactions.LatestIsStrictMaximum | app/models/transactions/base.rb:131-137 | a qualifying row strictly newer than all others is the one found |
| Transactions.Transaction.ReferringTransactionToSource | app/models/transactions/base.rb:135-137 | the found row has this transaction's source, is not this transaction, is of this class (any class from the base class) and is no older than any other such row; nothing is found exactly when no row qualifies |
| Transactions.Transaction.ReferringTransactionToDestination | app/models/transactions/base.rb:131-133 | the same, by destination |
| Transactions.ChainCheck | app/models/transactions/base.rb:98-101 | passes exactly when there is no previous transaction or it equals the referring one; raises NoMethodError exactly when there is a previous one but no referring one |
| Transactions.ChainFollowsLatest | app/models/transactions/base.rb:98-101 | a previous transaction passes only when it is the newest qualifying row; with no qualifying row the check raises; a transaction can never be its own previous one |
| Transactions.Transaction.CorrectPreviousTransaction | app/models/transactions/base.rb:98-101 | passes with no previous transaction or one equal to the referring one; raises when there is no referring one; otherwise adds the chain error and nothing else |
| Transactions.Transaction.SystemSumToZero | app/models/transactions/base.rb:93-96 | passes exactly when the event sum is zero; otherwise adds the sum error and nothing else |
| Transactions.FiatToFiatCheck | app/models/transactions/base.rb:103-106 | the check fails exactly when both coins are fiat |
| Transactions.Transaction.NotFiatToFiat | app/models/transactions/base.rb:103-106 | passes exactly when not both coins are fiat; otherwise adds the fiat error and nothing else |
| Transactions.RatesCheck | app/models/transactions/base.rb:108-113 | raises exactly when a live rate is unavailable, with the source coin's error first; otherwise passes exactly when each locked rate and its live rate agree after rounding half up to 8 places |
| Transactions.RatesCheckTolerance | app/models/transactions/base.rb:108-113 | the check raises exactly when a live rate is unavailable; a pass means each locked rate is within 10^-8 of its live rate; equal rates always pass |
| Transactions.Transaction.RatesMatch | app/models/transactions/base.rb:108-113 | adds the rate error exactly when the check fails, and nothing otherwise |
| Transactions.LegValue | app/models/transactions/base.rb:115-126 | for every non-negative subdivision, including coins with more than 8 places where the scale 8 − subdivision is negative, a leg's value is its count of 10^-8 units (half up) divided by 10^subdivision, truncated toward zero |
| Transactions.ValuesCheck | app/models/transactions/base.rb:115-129 | raises exactly when a coin has no subdivision; otherwise passes exactly when the two legs' values are equal |
| Transactions.ValuesCheckSymmetric | app/models/transactions/base.rb:115-129 | swapping source and destination gives the same verdict, and a leg equal to the other passes |
| Transactions.Transaction.ValuesMatch | app/models/transactions/base.rb:115-129 | raises on a missing subdivision; otherwise passes exactly when both legs have equal integer values, and adds the value error on failure |
| Transactions.ValidationOutcome | app/models/transactions/base.rb:76-82 | raises NoMethodError exactly when there is a previous transaction but no referring one, and then the errors gathered so far are empty exactly when the type and the initiator are valid |
| Transactions.TransactionValidIff | app/models/transactions/base.rb:76-82 | a transaction is valid exactly when its type is one of TYPES, it has an initiator, its previous transaction is the referring one and its events sum to zero; in a completed run, a type error appears exactly when the type is invalid, the initiator, chain and sum errors each exactly when their rule fails, and no other error appears |
| Transactions.Transaction.Validate | app/models/transactions/base.rb:76-82 | the errors after validation are exactly those of the registered rules in declaration order, or those before the exception when the chain check raises |
| Members.ParsePhone | app/models/member.rb:32 | every parse gives well-formed parts: three, three and four digits, and only "-", "." or " " as separators |
| Members.ParsePhoneSound | app/models/member.rb:31-33 | every accepted phone string is one optional "(", three digits, one optional ")", one optional separator, three digits, one optional separator and four digits |
| Members.ParsePhoneComplete | app/models/member.rb:31-33 | every such layout is accepted and parsed back to its own parts |
| Members.UsernameErrors | app/models/member.rb:21-24 | taken exactly when another member has the username; invalid exactly when it fails the format; reserved exactly when it is in the reserved list; blank exactly when blank; no error exactly when none of these holds; only username is reported |
| Members.OtpErrors | app/models/member.rb:28-29 | an error exactly when two-factor has just been enabled and the delivery method is neither "sms" nor "app"; the only error is "is not included in the list" on otp_delivery_method |
| Members.PhoneErrors | app/models/member.rb:31-33 | with a country code present: blank exactly when the phone number is blank, invalid exactly when it fails the pattern; no error exactly when there is no country code or the number matches; only phone_number is reported |
| Members.CountryCodeErrors | app/models/member.rb:35-37 | with a phone number present: blank exactly when the country code is blank, not included exactly when it is not a mobile code; no error exactly when there is no phone number or the code is present and a mobile code; only country_code is reported |
| Members.EmailErrors | app/models/member.rb:39 | an error exactly when some member's email is the username, and it is the username "is invalid" error |
| Members.MemberErrors | app/models/member.rb:19-39 | each error appears exactly when its rule fails; username "is invalid" comes from either the format or the email rule; only the five validated attributes are reported |
| Members.MemberValidIff | app/models/member.rb:21-39 | a member is valid exactly when its username is present, unique, not reserved and of the word format, its slug is unique, its delivery method is allowed where required, its phone and country code agree, and no stored member has the username as email |
| Members.PhoneAndCountryTogether | app/models/member.rb:31-37 | a valid member has both a phone number and a country code, or neither |
| Members.FullPhoneNumber | app/models/member.rb:69-71 | "+" then the country code then the phone number, from which both parts can be read back |
| Members.AuthenticatedByApp | app/models/member.rb:73-75 | app delivery is one of the listed delivery methods and excludes SMS delivery |
| Members.AuthenticatedByPhone | app/models/member.rb:77-79 | SMS delivery is one of the listed delivery methods |
| Members.OtpSetupComplete | app/models/member.rb:85-87 | complete setup means two-factor is enabled and a non-empty secret key exists, and setup is then not incomplete |
| Members.OtpSetupIncomplete | app/models/member.rb:89-91 | incomplete setup means two-factor is disabled and a non-empty secret key exists |
| Members.NeedTwoFactorAuthentication | app/models/member.rb:81-83 | never needed while two-factor is disabled, and only needed with a non-empty secret key |
| Members.OtpStates | app/models/member.rb:73-91 | app and SMS delivery exclude each other; setup is never both complete and incomplete; two-factor authentication is needed exactly when setup is complete; a valid member who has just enabled two-factor uses app or SMS delivery |
| Members.Member.AdjustSlug | app/models/member.rb:114-116 | the slug becomes the username, and nothing else changes |
| Members.Member.EmailAgainstUsername | app/models/member.rb:110-112 | adds the username "is invalid" error exactly when some stored member's email equals the username |
| Members.Member.Validate | app/models/member.rb:19-41 | on update with a changed username the slug first becomes the username; the errors are then exactly the member rules' errors in declaration order, and the record is valid exactly when there are none |

## Left out

- Fetching rates over HTTP and caching them are not modelled. The Coinbase quotes and the Bittrex market list are inputs (`RateTables`).
- Coins.FiatBtcRate: a zero quote is treated as an unavailable rate (`ZeroQuote`). In Ruby, `1.0 / BigDecimal("0")` may give Infinity instead of raising, depending on BigDecimal's exception mode; `btc_rate` would then be Infinity and `rates_match` would fail instead of raising. Reals have no Infinity. Coins.Value and Coins.BtcRate inherit this.
- Floating point is not modelled. Ruby's `1.0 / BigDecimal` and Float `to_d` are exact real arithmetic here.
- Coins.CryptoBtcRate: a market with no Bid (a nil `Bid`) is not modelled; every market carries a rate.
- `system_total_display` is left out. It sums over every coin in the database and divides by a live rate; it needs the same rate inputs and adds no rule.
- `liability`, `liability_display` and `equity` are left out. They are the same sum as `assets`, over other event kinds.
- The associations' own checks are not modelled. This covers the implicit presence of required `belongs_to` records and `dependent: :restrict_with_error`. `initiated_by` presence is the only association check modelled.
- ReadOnlyModel, the `publish_to_source` and `publish_to_destination` callbacks, the event store, the SMS worker, Devise (including `find_for_database_authentication`) and the OTP gems are left out. They are outside the ledger rules.
- Devise's `:validatable` module registers email and password validations on Member ahead of the username rules. Those errors are not part of `Members.MemberErrors`, so `Members.MemberValidIff` and `Members.Member.Validate` speak of the member rules this model declares, not of Devise's.
- `referring_transaction` is not defined in the transaction class. The model takes the referring transaction's id as an input. A missing one makes the chain check raise, as calling `id` on nil does.
- The named scopes and the `system_deposit?`-style predicate methods are not generated by name. `Transactions.IsOfType` stands for all of them.
- Rows with equal `created_at` are not ordered by the database. `Transactions.Latest` returns the last such row in the order given.
- `blank?` is modelled for ASCII whitespace only. Unicode spaces are not covered.
- Members.Member.Validate: FriendlyId's own slug generation is not modelled, only the `adjust_slug` callback. The phone and country-code guards treat the attributes as strings.
- Member inclusion in `MobileCountryCodes.with_code_only` and exclusion by `InaccessibleWords.all` are not modelled as lists. Those lists are inputs.
- Database locking and concurrent saves are not modelled.
- A nil `source_coin` or `destination_coin` is not modelled. The exchange checks (`not_fiat_to_fiat`, `rates_match`, `values_match`) call methods on both coins, so in Ruby a missing coin raises NoMethodError. The model passes both coins as `Coin` values, so `Transactions.FiatToFiatCheck` never raises.
- FriendlyId's slug generation for coins (`friendly_id :code, use: :slugged`) is not modelled. `Coins.CoinErrors` and `Coins.CoinValidIff` take the slug as given, not as derived from the code before validation.

## Findings

| source | as written | input that shows it | evidently intended | confidence | as-written member | corrected member |
|---|---|---|---|---|---|---|
| app/models/coin.rb:136-140 | adds "must be a multiple of 10" when the subdivision IS divisible by ten | subdivision 10 (or 0) is rejected, while 8 is accepted | reject exactly the subdivisions that are not multiples of ten | not executed; the method is also never registered as a validation | Coins.SubdivisionCheckInverted | Coins.SubdivisionMultipleOfTenAccepts |
