# Validation boundary of the Myriad SDK, in Dafny

This project models the validation layer of the Myriad / Polkamarkets
TypeScript SDK and proves properties of it. The layer is the code that stands
between the SDK's callers and the remote API or contract:

- `src/validation/utils.ts`. `validate` runs a schema over an untyped value.
  It returns the parsed value, or throws an `Error` whose message is the
  caller's prefix, then `": "`, then every issue written as `path: message`,
  separated by `"; "`. `validateParams` and `validateResponse` fix the prefix.
- `src/validation/middleware.ts`. `withValidation` wraps an operation with an
  optional check of its first argument and an optional check of its result.
  `validateClass` wraps the configured methods of each new instance, in a loop.
- `src/validation/decorators.ts`. `validateParam` and `validateResult` replace
  a method descriptor's `value`. The decorators' `withValidation` always
  checks `args[0]`. `createValidatedMethod` wraps a one-argument function.
- `src/validation/schemas.ts`. The catalog of schemas: configuration records,
  request parameters, responses, and the two schema constructors
  `paginatedResponseSchema` and `myriadResponseSchema`.

Modules, one per component:

- `Values` (values.dfy). The untyped values that cross the boundary, and the
  issues and errors about them. JavaScript values form a JSON-like tree that
  also has `undefined` and bigints.
- `Strings` (strings.dfy). `join`, `split`, and the decimal rendering of an
  array index.
- `Schemas` (schemas.dfy). The schema datatype, and one recursive check,
  `ParseAt`, that plays the schema library's `parse` at a path. It also defines
  `Conforms`, an independent definition of acceptance, and proves the two
  agree.
- `Catalog` (catalog.dfy). Each schema of `schemas.ts` as a function.
  `CatalogRules` (catalog_rules.dfy) states each schema's acceptance rule
  directly, and proves it against `Parse`.
- `ValidationUtils` (utils.dfy). `validate`, `validateParams`,
  `validateResponse`, and the error formatter.
- `Calls` (calls.dfy). The wrapped operations as values (`Fn`), what calling
  one does (`Run`), and an imperative `Call` that proves equal to it. In
  `Call`, the rest parameter is a fresh array, and the checked argument is
  overwritten in place. It also has `Instance`, an object whose method slots
  the class decorator replaces.
- `Middleware` (middleware.dfy) and `Decorators` (decorators.dfy). The
  wrappers, the slot-replacing loop of `validateClass`, the descriptor updates
  of the method decorators, and their properties.

How the model reads the source:

- Calls are synchronous. A throw, or a rejected promise, is an `Err`.
- An original method is a function from its receiver's state and its arguments
  to a result and a new receiver state.
- Calling an operation also yields the log of original methods it invoked.
  This is how "invoked exactly once, with the caller's receiver" is stated.

## Model

| member | source | states |
|---|---|---|
| `Strings.JoinEmpty` | src/validation/utils.ts:26-27 | a joined path is empty exactly when there are no parts, or a single empty one |
| `Strings.SplitJoin` | src/validation/utils.ts:28 | splitting a join at its separator gives back the parts, in order, when no part holds the separator |
| `Strings.NatToString` | src/validation/utils.ts:26 | an index step renders as a non-empty string of decimal digits |
| `Strings.DigitsValueOfNatToString` | src/validation/utils.ts:26 | the rendered digits of an index read back as the same number |
| `Schemas.ParseAt` | src/validation/utils.ts:22 | a failing parse reports at least one issue, and every issue lies at or below the position being checked |
| `Schemas.Parse` | src/validation/utils.ts:22 | a parse failure is a schema-library error carrying a non-empty list of issues |
| `Schemas.ParseAtAcceptsIffConforms` | src/validation/utils.ts:22 | the check accepts a value exactly when the value satisfies the independent acceptance definition `Conforms` |
| `Schemas.ParseAcceptsIffConforms` | src/validation/utils.ts:21-22 | `parse` succeeds exactly when the value conforms to the schema |
| `Schemas.ParseAtExactIsIdentity` | src/validation/utils.ts:22 | a value that is `Exact` for the schema (it conforms, carries no undeclared keys, and inside a union has the shape of the first option it satisfies) is returned unchanged by the check |
| `Schemas.ParseExactIsIdentity` | src/validation/utils.ts:22 | parsing a value that is `Exact` for the schema (it conforms, carries no undeclared keys, and inside a union has the shape of the first option it satisfies) returns that same value, so validation is idempotent on such values |
| `Schemas.ObjectReportsEveryField` | src/validation/utils.ts:25 | every issue of a refused field is among the issues reported for the object, under the field's key |
| `Schemas.ArrayReportsEveryItem` | src/validation/utils.ts:25 | every issue of a refused element is among the issues reported for the array, under the element's index |
| `Schemas.ObjectIssuesComeFromFields` | src/validation/utils.ts:25 | conversely, every issue reported for a refused object is an issue of one of its declared fields |
| `Schemas.ArrayIssuesComeFromItems` | src/validation/utils.ts:25 | conversely, every issue reported for a refused array is an issue of one of its items, so the array's issues are exactly those of its refused items |
| `Schemas.SoleMissingPrice` | src/validation/utils.ts:25-27 | `[{price: 1}, {}, {price: 3}]` against an array of records with a required numeric `price` is refused with the single issue "required" at path `1.price` |
| `Schemas.AcceptsMissingIffConforms` | src/validation/schemas.ts:52 | a schema accepts an absent key exactly when it is optional, a nullable optional, an enum with undefined, or a union with such an option |
| `Schemas.ParsedHasKeys` | src/validation/schemas.ts:47-67 | an object that parses holds every key whose schema does not accept an absent value |
| `Schemas.ParsedWithoutKey` | src/validation/schemas.ts:47-67 | an object that parses still parses with a key removed, when every declaration of that key accepts an absent value |
| `Schemas.EmptyObjectParses` | src/validation/schemas.ts:69-82 | the empty object parses against an object schema whose fields all accept an absent value |
| `Catalog.NetworkSchema` | src/validation/schemas.ts:10 | the enum of the two network names; what it accepts is `Schemas.Conforms` of it (`Schemas.ParseAcceptsIffConforms`) |
| `Catalog.AddressSchema` | src/validation/schemas.ts:11 | a string of length at least one; what it accepts is `Schemas.Conforms` of it (`Schemas.ParseAcceptsIffConforms`) |
| `Catalog.BigNumberishSchema` | src/validation/schemas.ts:12 | the union of string, number and bigint; what it accepts is `Schemas.Conforms` of it (`Schemas.ParseAcceptsIffConforms`) |
| `Catalog.MyriadConfigSchema` | src/validation/schemas.ts:15-17 | the Myriad client configuration record; what it accepts is `Schemas.Conforms` of it (`Schemas.ParseAcceptsIffConforms`) |
| `Catalog.MarketCategorySchema` | src/validation/schemas.ts:19-23 | a market category record; what it accepts is `Schemas.Conforms` of it (`Schemas.ParseAcceptsIffConforms`) |
| `Catalog.MarketTagSchema` | src/validation/schemas.ts:25-28 | a market tag record; what it accepts is `Schemas.Conforms` of it (`Schemas.ParseAcceptsIffConforms`) |
| `Catalog.MarketOutcomeSchema` | src/validation/schemas.ts:30-35 | a market outcome record; what it accepts is `Schemas.Conforms` of it (`Schemas.ParseAcceptsIffConforms`) |
| `Catalog.MarketVolumeSchema` | src/validation/schemas.ts:37-41 | a market volume record; what it accepts is `Schemas.Conforms` of it (`Schemas.ParseAcceptsIffConforms`) |
| `Catalog.MarketLiquiditySchema` | src/validation/schemas.ts:43-45 | a market liquidity record; what it accepts is `Schemas.Conforms` of it (`Schemas.ParseAcceptsIffConforms`) |
| `Catalog.MarketSchema` | src/validation/schemas.ts:47-67 | the market record, with its thirteen required and six optional keys; what it accepts is `Schemas.Conforms` of it (`Schemas.ParseAcceptsIffConforms`) |
| `Catalog.PaginationParamsSchema` | src/validation/schemas.ts:69-72 | the optional positive-integer `page` and `limit`; what it accepts is `Schemas.Conforms` of it (`Schemas.ParseAcceptsIffConforms`) |
| `Catalog.MarketFiltersSchema` | src/validation/schemas.ts:74-82 | the pagination parameters extended with the optional market filters; what it accepts is `Schemas.Conforms` of it (`Schemas.ParseAcceptsIffConforms`) |
| `Catalog.PaginatedResponseSchema` | src/validation/schemas.ts:84-92 | for an item schema, the record of `data` items and pagination `meta`; what it accepts is `Schemas.Conforms` of it (`Schemas.ParseAcceptsIffConforms`) |
| `Catalog.MyriadErrorSchema` | src/validation/schemas.ts:94-98 | the API error record; what it accepts is `Schemas.Conforms` of it (`Schemas.ParseAcceptsIffConforms`) |
| `Catalog.MyriadResponseSchema` | src/validation/schemas.ts:100-104 | for a payload schema, the API envelope of `success`, optional `data` and optional `error`; what it accepts is `Schemas.Conforms` of it (`Schemas.ParseAcceptsIffConforms`) |
| `Catalog.PolkamarketConfigSchema` | src/validation/schemas.ts:107-112 | the Polkamarkets client configuration record; what it accepts is `Schemas.Conforms` of it (`Schemas.ParseAcceptsIffConforms`) |
| `Catalog.CreateMarketDescriptionSchema` | src/validation/schemas.ts:114-129 | the description of a market to create; what it accepts is `Schemas.Conforms` of it (`Schemas.ParseAcceptsIffConforms`) |
| `Catalog.MarketDataSchema` | src/validation/schemas.ts:131-138 | the on-chain market data record; what it accepts is `Schemas.Conforms` of it (`Schemas.ParseAcceptsIffConforms`) |
| `Catalog.MarketAltDataSchema` | src/validation/schemas.ts:140-150 | the on-chain alternative market data record; what it accepts is `Schemas.Conforms` of it (`Schemas.ParseAcceptsIffConforms`) |
| `Catalog.MarketOutcomeDataSchema` | src/validation/schemas.ts:152-156 | the on-chain outcome data record; what it accepts is `Schemas.Conforms` of it (`Schemas.ParseAcceptsIffConforms`) |
| `Catalog.MarketPricesDataSchema` | src/validation/schemas.ts:158-161 | the on-chain prices record; what it accepts is `Schemas.Conforms` of it (`Schemas.ParseAcceptsIffConforms`) |
| `Catalog.MarketSharesDataSchema` | src/validation/schemas.ts:163-166 | the on-chain shares record; what it accepts is `Schemas.Conforms` of it (`Schemas.ParseAcceptsIffConforms`) |
| `Catalog.UserClaimStatusSchema` | src/validation/schemas.ts:168-174 | the user's claim status record; what it accepts is `Schemas.Conforms` of it (`Schemas.ParseAcceptsIffConforms`) |
| `Catalog.UserMarketSharesSchema` | src/validation/schemas.ts:176-179 | the user's shares in a market; what it accepts is `Schemas.Conforms` of it (`Schemas.ParseAcceptsIffConforms`) |
| `Catalog.BuyParamsSchema` | src/validation/schemas.ts:181-186 | the parameters of a buy; what it accepts is `Schemas.Conforms` of it (`Schemas.ParseAcceptsIffConforms`) |
| `Catalog.SellParamsSchema` | src/validation/schemas.ts:188-193 | the parameters of a sell; what it accepts is `Schemas.Conforms` of it (`Schemas.ParseAcceptsIffConforms`) |
| `Catalog.AddLiquidityParamsSchema` | src/validation/schemas.ts:195-198 | the parameters of adding liquidity; what it accepts is `Schemas.Conforms` of it (`Schemas.ParseAcceptsIffConforms`) |
| `Catalog.RemoveLiquidityParamsSchema` | src/validation/schemas.ts:200-203 | the parameters of removing liquidity; what it accepts is `Schemas.Conforms` of it (`Schemas.ParseAcceptsIffConforms`) |
| `Catalog.ClaimParamsSchema` | src/validation/schemas.ts:205-207 | the parameters of a claim; what it accepts is `Schemas.Conforms` of it (`Schemas.ParseAcceptsIffConforms`) |
| `Catalog.ClaimVoidedParamsSchema` | src/validation/schemas.ts:209-212 | the parameters of a voided claim; what it accepts is `Schemas.Conforms` of it (`Schemas.ParseAcceptsIffConforms`) |
| `Catalog.CalcBuyAmountParamsSchema` | src/validation/schemas.ts:214-218 | the parameters of a buy-amount calculation; what it accepts is `Schemas.Conforms` of it (`Schemas.ParseAcceptsIffConforms`) |
| `Catalog.CalcSellAmountParamsSchema` | src/validation/schemas.ts:220-224 | the parameters of a sell-amount calculation; what it accepts is `Schemas.Conforms` of it (`Schemas.ParseAcceptsIffConforms`) |
| `Catalog.PortfolioMarketSchema` | src/validation/schemas.ts:231-236 | one market of a portfolio; what it accepts is `Schemas.Conforms` of it (`Schemas.ParseAcceptsIffConforms`) |
| `Catalog.PortfolioSchema` | src/validation/schemas.ts:238-240 | a portfolio, an array of portfolio markets; what it accepts is `Schemas.Conforms` of it (`Schemas.ParseAcceptsIffConforms`) |
| `CatalogRules.NetworkAcceptsExactly` | src/validation/schemas.ts:10 | the network schema accepts exactly "mainnet" and "testnet" |
| `CatalogRules.AddressRejectsEmpty` | src/validation/schemas.ts:11 | an address is any non-empty string, returned unchanged; the empty string and non-strings are refused |
| `CatalogRules.BigNumberishAcceptsExactly` | src/validation/schemas.ts:12 | a BigNumberish is exactly a string, a number or a bigint, returned unchanged; booleans, null, arrays and objects are refused |
| `CatalogRules.PaginationParamsAcceptsExactly` | src/validation/schemas.ts:69-72 | pagination parameters are an object whose `page` and `limit` are each absent or a positive integer |
| `CatalogRules.MarketFiltersAcceptEmpty` | src/validation/schemas.ts:74-82 | every market filter is optional, so the empty object is a valid filter |
| `CatalogRules.MarketFiltersKeepPagination` | src/validation/schemas.ts:74 | the market filters keep the pagination rule for `page` and `limit` |
| `CatalogRules.PaginationMetaConforms` | src/validation/schemas.ts:86-91 | a pagination record has positive `currentPage` and `itemsPerPage` and nonnegative `totalPages` and `totalItems`, all integers |
| `CatalogRules.PaginatedResponseAcceptsExactly` | src/validation/schemas.ts:84-92 | a paginated response parses exactly when `data` is an array whose every element parses against the item schema and `meta` is a valid pagination record |
| `CatalogRules.MyriadResponseAcceptsExactly` | src/validation/schemas.ts:100-104 | the API envelope parses exactly when `success` is a boolean, `data` is absent or parses against the payload schema, and `error` is absent or a valid error record |
| `CatalogRules.MarketDataAcceptsExactly` | src/validation/schemas.ts:131-138 | market data parses exactly when `state` is one of the market states 0 to 3, the four amounts are BigNumberish, and `resolvedOutcomeId` is a number or null, never a string |
| `CatalogRules.MarketRequiresKeys` | src/validation/schemas.ts:47-67 | a market that parses has every non-optional key, and its `status` is one of the four market statuses |
| `CatalogRules.MarketOptionalKeysMayBeAbsent` | src/validation/schemas.ts:47-67 | a market that parses still parses without any one of `imageUrl`, `resolvesAt`, `resolvedAt`, `category`, `subcategory`, `resolvedOutcomeId` |
| `CatalogRules.ContractParamsAcceptExactly` | src/validation/schemas.ts:181-224 | each contract-call parameter record parses exactly when every declared key holds a BigNumberish |
| `ValidationUtils.PathText` | src/validation/utils.ts:26-27 | a rendered path is empty, and so omitted from the issue, exactly for the root path and for a single empty key |
| `ValidationUtils.IssueText` | src/validation/utils.ts:27 | an issue's text ends with the issue's message, and is exactly the bare message when the path renders empty |
| `ValidationUtils.PathTextSplits` | src/validation/utils.ts:26 | a rendered path splits at "." back into its steps, and each index step reads back as its number, when no key holds a "." |
| `ValidationUtils.FormatIssues` | src/validation/utils.ts:25-28 | no issues format as the empty string; otherwise the first issue's text opens the list |
| `ValidationUtils.FormatIssuesSplits` | src/validation/utils.ts:25-28 | the formatted issues split at "; " into one text per issue, in the original order, when no key and no issue message holds a ";" |
| `ValidationUtils.QuotedSemicolonSplitsOneIssue` | src/validation/utils.ts:25-30 | an enum refusal of a received string "x; y" is a single issue whose formatted text splits at "; " into two parts, so the proviso on messages cannot be dropped |
| `ValidationUtils.Handle` | src/validation/utils.ts:23-33 | a schema error becomes an `Error` with message prefix + ": " + formatted issues; any other error is rethrown unchanged; a parsed value is returned unchanged |
| `ValidationUtils.Validate` | src/validation/utils.ts:16-34 | succeeds exactly when the data conforms, then returning exactly the parsed value; otherwise throws an `Error` whose message starts with the prefix and ": "; the prefix defaults to "Validation error" |
| `ValidationUtils.ValidateParams` | src/validation/utils.ts:44-50 | `validate` whose error message starts with "Invalid parameters for <methodName>: " |
| `ValidationUtils.ValidateResponse` | src/validation/utils.ts:60-66 | `validate` whose error message starts with "Invalid response from <methodName>: " |
| `ValidationUtils.ValidateReportsEveryIssue` | src/validation/utils.ts:24-30 | a refused value throws a message that, after the prefix and ": ", splits into exactly one text per issue, in order, when no key and no issue message holds a ";" |
| `Calls.Run` | src/validation/middleware.ts:24-40 | what calling an original method or any wrapper does (middleware.ts:24-40, decorators.ts:26-33, 54-58, 81-93, 113-122); the receiver changes only through an invoked original method, so a call that invoked none leaves it as it was |
| `Calls.Call` | src/validation/middleware.ts:24-40 | calling a wrapper step by step, with the arguments in a fresh array that is overwritten in place, has exactly the outcome `Run` gives |
| `Calls.Instance.Invoke` | tests/validation/middleware.test.ts:106-117 | invoking a member runs it with the instance's state as receiver, updates that state, and logs the original methods invoked; a member that is not a function throws and changes nothing |
| `Middleware.WithValidation` | src/validation/middleware.ts:16-42 | the middleware's wrapper around an operation, with both schemas optional and the name defaulting to "API method"; what calling it does is stated by the lemmas below |
| `Middleware.RefusedInputShortCircuits` | src/validation/middleware.ts:26-29 | an invalid first argument fails the call with "Invalid parameters for <methodName>: ", without invoking the original, and leaves the receiver unchanged |
| `Middleware.AcceptedInputForwards` | src/validation/middleware.ts:26-32 | otherwise the original runs on the same receiver with the same number of arguments, only `args[0]` replaced by its parsed value when an input schema is given; its errors propagate unchanged; without an output schema its result is returned as is |
| `Middleware.OutputChecked` | src/validation/middleware.ts:35-37 | with an output schema, a result is returned exactly when it conforms, as its parsed value; otherwise the call fails with "Invalid response from <methodName>: " although the original succeeded |
| `Middleware.InvokedExactlyOnce` | src/validation/middleware.ts:32 | the original is invoked exactly once, with the caller's receiver and the forwarded arguments, unless the input is refused, in which case it is never invoked |
| `Middleware.NoSchemasPassThrough` | src/validation/middleware.ts:39 | with no schemas the wrapper has the same outcome as the original, called with the same arguments |
| `Middleware.DefaultMethodName` | src/validation/middleware.ts:19 | without a method name, an input error names "API method" |
| `Middleware.ValidateClass` | src/validation/middleware.ts:62-71 | the loop leaves the instance's members as the left-to-right fold `WrapAll` of the configuration, and changes neither its state nor its log |
| `Middleware.WrapAll` | src/validation/middleware.ts:62-72 | the members after the loop has handled the configuration entries in order, each step wrapping the named member when it is a function |
| `Middleware.WrapAllKeepsMembers` | src/validation/middleware.ts:62-71 | wrapping adds and removes no member, and a function stays a function |
| `Middleware.WrapAllLeavesOthers` | src/validation/middleware.ts:65 | a member that is not a function, or that no entry names, is left untouched |
| `Middleware.WrapAllWraps` | src/validation/middleware.ts:66-70 | a configured member that is a function becomes the validating wrapper around the original, with the entry's schemas and name |
| `Decorators.ValidateParam` | src/validation/decorators.ts:15-36 | replaces the descriptor's value by the parameter-checking wrapper around the old value, with `paramIndex` defaulting to 0, and returns the same descriptor |
| `Decorators.ValidateResult` | src/validation/decorators.ts:44-62 | replaces the descriptor's value by the result-checking wrapper around the old value, and returns the same descriptor |
| `Decorators.ParamRefused` | src/validation/decorators.ts:27-30 | a refused `args[paramIndex]` fails the call with the singular prefix "Invalid parameter for <name>: ", never the plural one, before the original runs |
| `Decorators.ParamForwarded` | src/validation/decorators.ts:26-32 | otherwise the original runs on the same receiver, with the same arguments except `args[paramIndex]`, which is replaced by its parsed value when it was passed |
| `Decorators.ResultValidated` | src/validation/decorators.ts:54-58 | the original runs once with unchanged arguments; its errors propagate; its result is returned exactly when it conforms, otherwise the call fails with "Invalid response from <name>: " |
| `Decorators.WithValidation` | src/validation/decorators.ts:72-95 | the decorators' wrapper around a method, with both schemas required; what calling it does is stated by the two lemmas below |
| `Decorators.StrictInputRefused` | src/validation/decorators.ts:83 | `args[0]` is always validated, as undefined when no argument was passed; a refused one fails the call before the original runs |
| `Decorators.StrictInputForwarded` | src/validation/decorators.ts:83-92 | an accepted first argument is replaced by its parsed value and becomes the only argument when none was passed; the original runs on the same receiver and its result is validated |
| `Decorators.CreateValidatedMethod` | src/validation/decorators.ts:107-123 | the one-argument wrapper around `fn`; what calling it does is stated by the two lemmas below |
| `Decorators.CreatedInputRefused` | src/validation/decorators.ts:115 | a refused input fails the call before `fn` runs |
| `Decorators.CreatedPassesParsedInput` | src/validation/decorators.ts:113-122 | `fn` is invoked once with the parsed input, not the raw one, as its only argument and without a receiver; the returned value is the parsed output, and a refused output fails with "Invalid response from <name>: " |

## Left out

- The schema library itself is not part of this model. `Schemas.ParseAt` models the subset of its behaviour the catalog uses: strings with a minimum length, numbers with the integer, positive and nonnegative checks, bigints, booleans, enums, nullable, optional, objects, arrays and unions. The library's message texts are stand-ins (`Values.Message`); only the enum refusal's text keeps the library's trait of quoting the string it received (`Values.EnumMessage`), since that is what decides whether a formatted message can be read back.
- Unknown object keys: the model drops them from the parsed object. No property depends on this; idempotence (`Schemas.ParseExactIsIdentity`) is stated only for values without undeclared keys.
- Schemas.ParseOptions: when no union option accepts, the model reports one stand-in issue at the union itself. How the library reports such a failure is not modelled, and no contract states it.
- `.min(n)` on strings counts UTF-16 code units in the library; `Schemas.StringS` counts characters (`|v.s|`). The two agree for `min(1)`, the only minimum the catalog uses.
- Numbers are exact reals. NaN, the infinities and other floating-point corner cases are not modelled.
- `transactionResponseSchema` (src/validation/schemas.ts:226-229) has a function-valued field, which has no `Value` representation.
- `.extend` in `marketFiltersSchema` is modelled as appending the new fields. This is exact here because none of the added keys is already declared.
- Several catalog entries are modelled as schemas, but get no rule of their own beyond `Schemas.ParseAcceptsIffConforms`: `myriadConfigSchema`, the market category, tag, outcome, volume and liquidity schemas, `polkamarketConfigSchema`, `createMarketDescriptionSchema`, `marketAltDataSchema`, `marketOutcomeDataSchema`, `marketPricesDataSchema`, `marketSharesDataSchema`, `userClaimStatusSchema`, `userMarketSharesSchema`, `portfolioMarketSchema` and `portfolioSchema`.
- Promises and scheduling are not modelled. All calls are synchronous, so the difference between `validateParam` throwing synchronously and the other wrappers returning a rejected promise is not visible.
- An original method affects only its receiver's state. Effects on other objects or on captured variables are not modelled. `createValidatedMethod` calls `fn` without a receiver, and whatever `fn` does to that absent receiver is discarded.
- `originalMethod.bind(this)` in `validateClass` is not modelled separately. `Instance.Invoke` always calls a member with the instance as receiver, so binding changes nothing there. Calls made through a detached reference to the method are not modelled.
- Symbol property keys are not modelled: `propertyKey` is a string. A negative `paramIndex` is not modelled either: the index is a natural number.
- The configuration of `validateClass` is a sequence of entries in `Object.entries` order, with distinct names. JavaScript's ordering of integer-like keys is not modelled.
- An instance's members are the properties visible through it. The difference between own and inherited methods is not modelled.
- The text of the `TypeError` thrown when a member is not a function is a stand-in.
- The HTTP and contract clients (`src/clients/...`), configuration (`src/config/index.ts`) and type-only files are not part of this model; the enum values of `MarketStatus` (src/types/myriad.ts:61-66) and `MarketState` (src/types/polkamarket.ts:47-52) are used as constants.
