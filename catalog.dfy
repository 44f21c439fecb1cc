/**
 * The SDK's catalog of schemas (src/validation/schemas.ts): the shapes of
 * configuration records, request parameters and responses that cross the
 * boundary, and the two schema constructors for paginated listings and the
 * Myriad API envelope.
 */
module Catalog {
  import opened Values
  import opened Schemas

  // ---------------------------------------------------------------------
  // Building blocks

  function AnyString(): Schema
  {
    StringS(0)
  }

  function AnyNumber(): Schema
  {
    NumberS(false, false, false)
  }

  function PositiveInt(): Schema
  {
    NumberS(true, true, false)
  }

  function NonnegativeInt(): Schema
  {
    NumberS(true, false, true)
  }

  function AnyInt(): Schema
  {
    NumberS(true, false, false)
  }

  /** The string values of the `MarketStatus` enum (src/types/myriad.ts). */
  function MarketStatusValues(): seq<Value>
  {
    [Str("open"), Str("closed"), Str("resolved"), Str("canceled")]
  }

  /**
   * The values of the numeric `MarketState` enum (src/types/polkamarket.ts);
   * `z.nativeEnum` of a numeric enum accepts the numbers, not the names.
   */
  function MarketStateValues(): seq<Value>
  {
    [Num(0.0), Num(1.0), Num(2.0), Num(3.0)]
  }

  // ---------------------------------------------------------------------
  // Basic schemas

  function NetworkSchema(): Schema
  {
    EnumS([Str("mainnet"), Str("testnet")])
  }

  function AddressSchema(): Schema
  {
    StringS(1)
  }

  function BigNumberishSchema(): Schema
  {
    UnionS([AnyString(), AnyNumber(), BigIntS])
  }

  // ---------------------------------------------------------------------
  // Myriad schemas

  function MyriadConfigSchema(): Schema
  {
    ObjectS([Field("network", NetworkSchema())])
  }

  function MarketCategorySchema(): Schema
  {
    ObjectS([Field("id", AnyString()), Field("name", AnyString()), Field("slug", AnyString())])
  }

  function MarketTagSchema(): Schema
  {
    ObjectS([Field("id", AnyString()), Field("name", AnyString())])
  }

  function MarketOutcomeSchema(): Schema
  {
    ObjectS([
      Field("id", AnyString()),
      Field("name", AnyString()),
      Field("price", AnyNumber()),
      Field("imageUrl", OptionalS(AnyString()))])
  }

  function MarketVolumeSchema(): Schema
  {
    ObjectS([Field("total", AnyNumber()), Field("daily", AnyNumber()), Field("weekly", AnyNumber())])
  }

  function MarketLiquiditySchema(): Schema
  {
    ObjectS([Field("total", AnyNumber())])
  }

  function MarketSchema(): Schema
  {
    ObjectS([
      Field("id", AnyString()),
      Field("slug", AnyString()),
      Field("title", AnyString()),
      Field("description", AnyString()),
      Field("imageUrl", OptionalS(AnyString())),
      Field("createdAt", AnyString()),
      Field("updatedAt", AnyString()),
      Field("expiresAt", AnyString()),
      Field("resolvesAt", OptionalS(AnyString())),
      Field("resolvedAt", OptionalS(AnyString())),
      Field("status", EnumS(MarketStatusValues())),
      Field("category", OptionalS(MarketCategorySchema())),
      Field("subcategory", OptionalS(MarketCategorySchema())),
      Field("tags", ArrayS(MarketTagSchema())),
      Field("outcomes", ArrayS(MarketOutcomeSchema())),
      Field("volume", MarketVolumeSchema()),
      Field("liquidity", MarketLiquiditySchema()),
      Field("isResolved", BooleanS),
      Field("resolvedOutcomeId", OptionalS(AnyString()))])
  }

  function PaginationParamsSchema(): Schema
  {
    ObjectS([
      Field("page", OptionalS(PositiveInt())),
      Field("limit", OptionalS(PositiveInt()))])
  }

  /** The keys the market filters add to the pagination parameters. */
  function MarketFilterKeys(): seq<Field>
  {
    [
      Field("status", OptionalS(EnumS(MarketStatusValues()))),
      Field("categoryId", OptionalS(AnyString())),
      Field("subcategoryId", OptionalS(AnyString())),
      Field("search", OptionalS(AnyString())),
      Field("tags", OptionalS(ArrayS(AnyString()))),
      Field("sortBy", OptionalS(EnumS([Str("createdAt"), Str("expiresAt"), Str("volume"), Str("liquidity")]))),
      Field("sortDirection", OptionalS(EnumS([Str("asc"), Str("desc")])))]
  }

  /**
   * `paginationParamsSchema.extend(...)`: none of the added keys is declared
   * by the pagination parameters, so they follow them.
   */
  function MarketFiltersSchema(): Schema
  {
    ObjectS(PaginationParamsSchema().fields + MarketFilterKeys())
  }

  function PaginationMetaSchema(): Schema
  {
    ObjectS([
      Field("currentPage", PositiveInt()),
      Field("totalPages", NonnegativeInt()),
      Field("totalItems", NonnegativeInt()),
      Field("itemsPerPage", PositiveInt())])
  }

  /** `paginatedResponseSchema(item)`: a page of items with its position in the listing. */
  function PaginatedResponseSchema(item: Schema): Schema
  {
    ObjectS([Field("data", ArrayS(item)), Field("meta", PaginationMetaSchema())])
  }

  function MyriadErrorSchema(): Schema
  {
    ObjectS([Field("status", AnyInt()), Field("message", AnyString()), Field("code", AnyString())])
  }

  /** `myriadResponseSchema(data)`: the API envelope around a payload. */
  function MyriadResponseSchema(data: Schema): Schema
  {
    ObjectS([
      Field("success", BooleanS),
      Field("data", OptionalS(data)),
      Field("error", OptionalS(MyriadErrorSchema()))])
  }

  // ---------------------------------------------------------------------
  // Polkamarket schemas

  function PolkamarketConfigSchema(): Schema
  {
    ObjectS([
      Field("web3Provider", AnyString()),
      Field("web3PrivateKey", OptionalS(AnyString())),
      Field("web3EventsProvider", OptionalS(AnyString())),
      Field("network", OptionalS(NetworkSchema()))])
  }

  function CreateMarketDescriptionSchema(): Schema
  {
    ObjectS([
      Field("value", BigNumberishSchema()),
      Field("closesAt", BigNumberishSchema()),
      Field("outcomes", BigNumberishSchema()),
      Field("token", AddressSchema()),
      Field("distribution", ArrayS(BigNumberishSchema())),
      Field("question", AnyString()),
      Field("image", AnyString()),
      Field("arbitrator", AddressSchema()),
      Field("fee", BigNumberishSchema()),
      Field("treasuryFee", BigNumberishSchema()),
      Field("treasury", AddressSchema()),
      Field("realitio", AddressSchema()),
      Field("realitioTimeout", BigNumberishSchema()),
      Field("manager", AddressSchema())])
  }

  function MarketDataSchema(): Schema
  {
    ObjectS([
      Field("state", EnumS(MarketStateValues())),
      Field("closesAt", BigNumberishSchema()),
      Field("outcomes", BigNumberishSchema()),
      Field("liquidity", BigNumberishSchema()),
      Field("fee", BigNumberishSchema()),
      Field("resolvedOutcomeId", NullableS(AnyNumber()))])
  }

  function MarketAltDataSchema(): Schema
  {
    ObjectS([
      Field("closesAt", BigNumberishSchema()),
      Field("questionId", AnyString()),
      Field("outcomes", BigNumberishSchema()),
      Field("token", AddressSchema()),
      Field("fee", BigNumberishSchema()),
      Field("treasury", AddressSchema()),
      Field("realitio", AddressSchema()),
      Field("realitioTimeout", BigNumberishSchema()),
      Field("manager", AddressSchema())])
  }

  function MarketOutcomeDataSchema(): Schema
  {
    ObjectS([
      Field("price", BigNumberishSchema()),
      Field("shares", BigNumberishSchema()),
      Field("totalShares", BigNumberishSchema())])
  }

  function MarketPricesDataSchema(): Schema
  {
    ObjectS([
      Field("liquidityPrice", BigNumberishSchema()),
      Field("outcomePrices", ArrayS(BigNumberishSchema()))])
  }

  function MarketSharesDataSchema(): Schema
  {
    ObjectS([
      Field("liquidityShares", BigNumberishSchema()),
      Field("outcomeShares", ArrayS(BigNumberishSchema()))])
  }

  function UserClaimStatusSchema(): Schema
  {
    ObjectS([
      Field("claimedWinnings", BooleanS),
      Field("claimedLiquidity", BooleanS),
      Field("claimedFees", BooleanS),
      Field("claimedVoided", BooleanS),
      Field("resolvedOutcomeId", BigNumberishSchema())])
  }

  function UserMarketSharesSchema(): Schema
  {
    ObjectS([
      Field("liquidityPoolShares", BigNumberishSchema()),
      Field("outcomeShares", ArrayS(BigNumberishSchema()))])
  }

  function BuyParamsSchema(): Schema
  {
    ObjectS([
      Field("marketId", BigNumberishSchema()),
      Field("outcomeId", BigNumberishSchema()),
      Field("minOutcomeSharesToBuy", BigNumberishSchema()),
      Field("value", BigNumberishSchema())])
  }

  function SellParamsSchema(): Schema
  {
    ObjectS([
      Field("marketId", BigNumberishSchema()),
      Field("outcomeId", BigNumberishSchema()),
      Field("value", BigNumberishSchema()),
      Field("maxOutcomeSharesToSell", BigNumberishSchema())])
  }

  function AddLiquidityParamsSchema(): Schema
  {
    ObjectS([Field("marketId", BigNumberishSchema()), Field("value", BigNumberishSchema())])
  }

  function RemoveLiquidityParamsSchema(): Schema
  {
    ObjectS([Field("marketId", BigNumberishSchema()), Field("shares", BigNumberishSchema())])
  }

  function ClaimParamsSchema(): Schema
  {
    ObjectS([Field("marketId", BigNumberishSchema())])
  }

  function ClaimVoidedParamsSchema(): Schema
  {
    ObjectS([Field("marketId", BigNumberishSchema()), Field("outcomeId", BigNumberishSchema())])
  }

  function CalcBuyAmountParamsSchema(): Schema
  {
    ObjectS([
      Field("amount", BigNumberishSchema()),
      Field("marketId", BigNumberishSchema()),
      Field("outcomeId", BigNumberishSchema())])
  }

  function CalcSellAmountParamsSchema(): Schema
  {
    ObjectS([
      Field("amount", BigNumberishSchema()),
      Field("marketId", BigNumberishSchema()),
      Field("outcomeId", BigNumberishSchema())])
  }

  function PortfolioMarketSchema(): Schema
  {
    ObjectS([
      Field("marketId", AnyString()),
      Field("liquidityPoolShares", BigNumberishSchema()),
      Field("outcomeShares", ArrayS(BigNumberishSchema())),
      Field("claimStatus", UserClaimStatusSchema())])
  }

  function PortfolioSchema(): Schema
  {
    ObjectS([Field("markets", ArrayS(PortfolioMarketSchema()))])
  }
}
