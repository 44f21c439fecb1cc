/**
 * The acceptance rules of the schema catalog, stated without running the
 * schemas and proved against Parse.
 */
module CatalogRules {
  import opened Values
  import opened Schemas
  import opened Catalog

  predicate PositiveInteger(x: Value)
  {
    x.Num? && IsInteger(x.n) && x.n > 0.0
  }

  predicate NonnegativeInteger(x: Value)
  {
    x.Num? && IsInteger(x.n) && x.n >= 0.0
  }

  /** The runtime types a `BigNumberish` may have. */
  predicate BigNumberish(x: Value)
  {
    x.Str? || x.Num? || x.BigInt?
  }

  /** An optional page number or page size: absent, or a positive integer. */
  predicate PageBound(m: map<string, Value>, key: string)
  {
    Lookup(m, key) == Undefined || PositiveInteger(Lookup(m, key))
  }

  /** Only the two network names are accepted. */
  lemma NetworkAcceptsExactly(v: Value)
    ensures Parse(NetworkSchema(), v).Ok? <==> v == Str("mainnet") || v == Str("testnet")
  {
    ParseAcceptsIffConforms(NetworkSchema(), v);
  }

  /** An address is any non-empty string, returned as it is. */
  lemma AddressRejectsEmpty(v: Value)
    ensures Parse(AddressSchema(), v).Ok? <==> v.Str? && v.s != ""
    ensures Parse(AddressSchema(), v).Ok? ==> Parse(AddressSchema(), v).value == v
  {
    ParseAcceptsIffConforms(AddressSchema(), v);
  }

  lemma BigNumberishConforms(v: Value)
    ensures Conforms(BigNumberishSchema(), v) <==> BigNumberish(v)
  {
    var os := BigNumberishSchema().options;
    if v.Str? {
      assert os[0] in os;
    } else if v.Num? {
      assert os[1] in os;
    } else if v.BigInt? {
      assert os[2] in os;
    }
  }

  lemma BigNumberishExact(v: Value)
    requires BigNumberish(v)
    ensures Exact(BigNumberishSchema(), v)
  {
    var os := BigNumberishSchema().options;
    if v.Str? {
      assert Exact(os[0], v);
    } else if v.Num? {
      assert Exact(os[1], v) && !Conforms(os[0], v);
    } else {
      assert Exact(os[2], v) && !Conforms(os[0], v) && !Conforms(os[1], v);
    }
  }

  /** Any string, number or bigint is accepted and returned as it is; nothing else is. */
  lemma BigNumberishAcceptsExactly(v: Value)
    ensures Parse(BigNumberishSchema(), v).Ok? <==> BigNumberish(v)
    ensures Parse(BigNumberishSchema(), v).Ok? ==> Parse(BigNumberishSchema(), v).value == v
  {
    BigNumberishConforms(v);
    if Parse(BigNumberishSchema(), v).Ok? {
      ParseAccepted(BigNumberishSchema(), v);
    }
    if BigNumberish(v) {
      BigNumberishExact(v);
      ParseExactIsIdentity(BigNumberishSchema(), v);
    }
  }

  /** Every declared key of the record holds a `BigNumberish`. */
  predicate AllBigNumberish(fields: seq<Field>)
  {
    forall j | 0 <= j < |fields| :: fields[j].schema == BigNumberishSchema()
  }

  lemma BigNumberishRecordConforms(fields: seq<Field>, v: Value)
    requires AllBigNumberish(fields)
    ensures Conforms(ObjectS(fields), v) <==>
      v.Obj? && forall j | 0 <= j < |fields| :: BigNumberish(Lookup(v.fields, fields[j].name))
  {
    if v.Obj? {
      if forall j | 0 <= j < |fields| :: BigNumberish(Lookup(v.fields, fields[j].name)) {
        forall f | f in fields
          ensures Conforms(f.schema, Lookup(v.fields, f.name))
        {
          var j :| 0 <= j < |fields| && fields[j] == f;
          BigNumberishConforms(Lookup(v.fields, f.name));
        }
      }
      if Conforms(ObjectS(fields), v) {
        forall j | 0 <= j < |fields|
          ensures BigNumberish(Lookup(v.fields, fields[j].name))
        {
          assert fields[j] in fields;
          BigNumberishConforms(Lookup(v.fields, fields[j].name));
        }
      }
    }
  }

  /** The contract-call parameter records of the catalog. */
  function ContractParamsSchemas(): seq<Schema>
  {
    [BuyParamsSchema(), SellParamsSchema(), AddLiquidityParamsSchema(), RemoveLiquidityParamsSchema(),
     ClaimParamsSchema(), ClaimVoidedParamsSchema(), CalcBuyAmountParamsSchema(), CalcSellAmountParamsSchema()]
  }

  /**
   * The parameters of the prediction-market contract calls accept exactly the
   * objects in which every declared key holds a string, a number or a bigint.
   */
  lemma ContractParamsAcceptExactly(i: nat, v: Value)
    requires i < |ContractParamsSchemas()|
    ensures ContractParamsSchemas()[i].ObjectS?
    ensures
      var s := ContractParamsSchemas()[i];
      Parse(s, v).Ok? <==> v.Obj? && forall j | 0 <= j < |s.fields| :: BigNumberish(Lookup(v.fields, s.fields[j].name))
  {
    var s := ContractParamsSchemas()[i];
    assert s.ObjectS? && AllBigNumberish(s.fields);
    ParseAcceptsIffConforms(s, v);
    BigNumberishRecordConforms(s.fields, v);
  }

  /** `page` and `limit` may be absent, but when present they are positive integers. */
  lemma PaginationParamsAcceptsExactly(v: Value)
    ensures Parse(PaginationParamsSchema(), v).Ok? <==>
      v.Obj? && PageBound(v.fields, "page") && PageBound(v.fields, "limit")
  {
    ParseAcceptsIffConforms(PaginationParamsSchema(), v);
    assert Field("page", OptionalS(PositiveInt())) in PaginationParamsSchema().fields;
    assert Field("limit", OptionalS(PositiveInt())) in PaginationParamsSchema().fields;
  }

  /** Every key of the market filters is optional: the empty object is a valid filter. */
  lemma MarketFiltersAcceptEmpty()
    ensures Parse(MarketFiltersSchema(), Obj(map[])).Ok?
  {
    var fields := MarketFiltersSchema().fields;
    assert forall j | 0 <= j < |fields| :: AcceptsMissing(fields[j].schema);
    EmptyObjectParses(fields);
  }

  /** The market filters keep the pagination rule for `page` and `limit`. */
  lemma MarketFiltersKeepPagination(v: Value)
    requires Parse(MarketFiltersSchema(), v).Ok?
    ensures v.Obj? && PageBound(v.fields, "page") && PageBound(v.fields, "limit")
  {
    var fields := MarketFiltersSchema().fields;
    ParsedObject(fields, v);
    ParsedField(fields, v.fields, 0);
    ParsedField(fields, v.fields, 1);
    assert fields[0] == Field("page", OptionalS(PositiveInt()));
    assert fields[1] == Field("limit", OptionalS(PositiveInt()));
  }

  /** The shape of a pagination record: positive page numbers and sizes, nonnegative totals. */
  predicate PaginationMeta(x: Value)
  {
    && x.Obj?
    && PositiveInteger(Lookup(x.fields, "currentPage"))
    && NonnegativeInteger(Lookup(x.fields, "totalPages"))
    && NonnegativeInteger(Lookup(x.fields, "totalItems"))
    && PositiveInteger(Lookup(x.fields, "itemsPerPage"))
  }

  lemma PaginationMetaConforms(x: Value)
    ensures Conforms(PaginationMetaSchema(), x) <==> PaginationMeta(x)
  {
    var meta := PaginationMetaSchema().fields;
    assert Field("currentPage", PositiveInt()) in meta;
    assert Field("totalPages", NonnegativeInt()) in meta;
    assert Field("totalItems", NonnegativeInt()) in meta;
    assert Field("itemsPerPage", PositiveInt()) in meta;
  }

  lemma PaginatedResponseConforms(item: Schema, v: Value)
    ensures Conforms(PaginatedResponseSchema(item), v) <==>
      && v.Obj?
      && Lookup(v.fields, "data").Arr?
      && (forall x | x in Lookup(v.fields, "data").items :: Conforms(item, x))
      && PaginationMeta(Lookup(v.fields, "meta"))
  {
    var s := PaginatedResponseSchema(item);
    assert Field("data", ArrayS(item)) in s.fields;
    assert Field("meta", PaginationMetaSchema()) in s.fields;
    if v.Obj? {
      PaginationMetaConforms(Lookup(v.fields, "meta"));
    }
  }

  /** A page of items: every item satisfies `item`, and the pagination record is well formed. */
  lemma PaginatedResponseAcceptsExactly(item: Schema, v: Value)
    ensures Parse(PaginatedResponseSchema(item), v).Ok? <==>
      && v.Obj?
      && Lookup(v.fields, "data").Arr?
      && (forall x | x in Lookup(v.fields, "data").items :: Parse(item, x).Ok?)
      && PaginationMeta(Lookup(v.fields, "meta"))
  {
    ParseAcceptsIffConforms(PaginatedResponseSchema(item), v);
    PaginatedResponseConforms(item, v);
    forall x {
      ParseAcceptsIffConforms(item, x);
    }
  }

  lemma MyriadResponseConforms(data: Schema, v: Value)
    ensures Conforms(MyriadResponseSchema(data), v) <==>
      && v.Obj?
      && Lookup(v.fields, "success").Bool?
      && (Lookup(v.fields, "data") == Undefined || Conforms(data, Lookup(v.fields, "data")))
      && (Lookup(v.fields, "error") == Undefined || Conforms(MyriadErrorSchema(), Lookup(v.fields, "error")))
  {
    var s := MyriadResponseSchema(data);
    assert Field("success", BooleanS) in s.fields;
    assert Field("data", OptionalS(data)) in s.fields;
    assert Field("error", OptionalS(MyriadErrorSchema())) in s.fields;
  }

  /** The envelope needs a boolean `success`; the payload and the error may be absent. */
  lemma MyriadResponseAcceptsExactly(data: Schema, v: Value)
    ensures Parse(MyriadResponseSchema(data), v).Ok? <==>
      && v.Obj?
      && Lookup(v.fields, "success").Bool?
      && (Lookup(v.fields, "data") == Undefined || Parse(data, Lookup(v.fields, "data")).Ok?)
      && (Lookup(v.fields, "error") == Undefined || Parse(MyriadErrorSchema(), Lookup(v.fields, "error")).Ok?)
  {
    ParseAcceptsIffConforms(MyriadResponseSchema(data), v);
    MyriadResponseConforms(data, v);
    if v.Obj? {
      ParseAcceptsIffConforms(data, Lookup(v.fields, "data"));
      ParseAcceptsIffConforms(MyriadErrorSchema(), Lookup(v.fields, "error"));
    }
  }

  /**
   * On-chain market data: `state` is one of the declared market states,
   * the amounts are `BigNumberish`, and `resolvedOutcomeId` is a number or
   * null, never a string.
   */
  predicate MarketData(v: Value)
  {
    && v.Obj?
    && Lookup(v.fields, "state") in MarketStateValues()
    && BigNumberish(Lookup(v.fields, "closesAt"))
    && BigNumberish(Lookup(v.fields, "outcomes"))
    && BigNumberish(Lookup(v.fields, "liquidity"))
    && BigNumberish(Lookup(v.fields, "fee"))
    && (Lookup(v.fields, "resolvedOutcomeId") == Null || Lookup(v.fields, "resolvedOutcomeId").Num?)
  }

  lemma MarketDataLeadingKeys(v: Value)
    requires Conforms(MarketDataSchema(), v)
    ensures && v.Obj?
            && Lookup(v.fields, "state") in MarketStateValues()
            && BigNumberish(Lookup(v.fields, "closesAt"))
            && BigNumberish(Lookup(v.fields, "outcomes"))
  {
    var fields := MarketDataSchema().fields;
    BigNumberishConforms(Lookup(v.fields, "closesAt"));
    BigNumberishConforms(Lookup(v.fields, "outcomes"));
    ConformsField(fields, v, 0);
    ConformsField(fields, v, 1);
    ConformsField(fields, v, 2);
  }

  lemma MarketDataTrailingKeys(v: Value)
    requires Conforms(MarketDataSchema(), v)
    ensures && v.Obj?
            && BigNumberish(Lookup(v.fields, "liquidity"))
            && BigNumberish(Lookup(v.fields, "fee"))
            && (Lookup(v.fields, "resolvedOutcomeId") == Null || Lookup(v.fields, "resolvedOutcomeId").Num?)
  {
    var fields := MarketDataSchema().fields;
    BigNumberishConforms(Lookup(v.fields, "liquidity"));
    BigNumberishConforms(Lookup(v.fields, "fee"));
    ConformsField(fields, v, 3);
    ConformsField(fields, v, 4);
    ConformsField(fields, v, 5);
  }

  lemma MarketDataTrailingFields(v: Value)
    requires MarketData(v)
    ensures FieldsConform(MarketDataSchema().fields[3..], v.fields)
  {
    var fields := MarketDataSchema().fields;
    var m := v.fields;
    BigNumberishConforms(Lookup(m, "liquidity"));
    BigNumberishConforms(Lookup(m, "fee"));
    assert FieldsConform(fields[6..], m);
    FieldsConformStep(fields, m, 5);
    FieldsConformStep(fields, m, 4);
    FieldsConformStep(fields, m, 3);
  }

  lemma MarketDataConforms(v: Value)
    ensures Conforms(MarketDataSchema(), v) <==> MarketData(v)
  {
    if Conforms(MarketDataSchema(), v) {
      MarketDataLeadingKeys(v);
      MarketDataTrailingKeys(v);
    }
    if MarketData(v) {
      var fields := MarketDataSchema().fields;
      var m := v.fields;
      MarketDataTrailingFields(v);
      BigNumberishConforms(Lookup(m, "closesAt"));
      BigNumberishConforms(Lookup(m, "outcomes"));
      FieldsConformStep(fields, m, 2);
      FieldsConformStep(fields, m, 1);
      FieldsConformStep(fields, m, 0);
      assert fields[0..] == fields;
    }
  }

  lemma MarketDataAcceptsExactly(v: Value)
    ensures Parse(MarketDataSchema(), v).Ok? <==> MarketData(v)
  {
    MarketDataConforms(v);
    if Parse(MarketDataSchema(), v).Ok? {
      ParseAccepted(MarketDataSchema(), v);
    }
    if MarketData(v) {
      ConformsParses(MarketDataSchema(), v);
    }
  }

  /** The market keys that may be absent. */
  function MarketOptionalKeys(): seq<string>
  {
    ["imageUrl", "resolvesAt", "resolvedAt", "category", "subcategory", "resolvedOutcomeId"]
  }

  /** Where the market schema declares its other thirteen keys. */
  lemma MarketRequiredFields()
    ensures var fs := MarketSchema().fields;
      && fs[0] == Field("id", AnyString())
      && fs[1] == Field("slug", AnyString())
      && fs[2] == Field("title", AnyString())
      && fs[3] == Field("description", AnyString())
      && fs[5] == Field("createdAt", AnyString())
      && fs[6] == Field("updatedAt", AnyString())
      && fs[7] == Field("expiresAt", AnyString())
      && fs[10] == Field("status", EnumS(MarketStatusValues()))
      && fs[13] == Field("tags", ArrayS(MarketTagSchema()))
      && fs[14] == Field("outcomes", ArrayS(MarketOutcomeSchema()))
      && fs[15] == Field("volume", MarketVolumeSchema())
      && fs[16] == Field("liquidity", MarketLiquiditySchema())
      && fs[17] == Field("isResolved", BooleanS)
  {
  }

  /** A valid market carries every key that is not optional, and a declared status. */
  lemma MarketRequiresKeys(m: map<string, Value>)
    requires Parse(MarketSchema(), Obj(m)).Ok?
    ensures && "id" in m && "slug" in m && "title" in m && "description" in m
            && "createdAt" in m && "updatedAt" in m && "expiresAt" in m && "status" in m
            && "tags" in m && "outcomes" in m && "volume" in m && "liquidity" in m
            && "isResolved" in m
    ensures m["status"] in MarketStatusValues()
  {
    var fs := MarketSchema().fields;
    ParsedHasKeys(fs, m);
    MarketRequiredFields();
    ParsedField(fs, m, 10);
  }

  /** Every declaration of an optional market key accepts a missing value. */
  lemma MarketOptionalFields(k: string)
    requires k in MarketOptionalKeys()
    ensures var fs := MarketSchema().fields;
      forall j | 0 <= j < |fs| :: fs[j].name == k ==> AcceptsMissing(fs[j].schema)
  {
  }

  /** A valid market stays valid when one of the optional keys is left out. */
  lemma MarketOptionalKeysMayBeAbsent(m: map<string, Value>, k: string)
    requires Parse(MarketSchema(), Obj(m)).Ok?
    requires k in MarketOptionalKeys()
    ensures Parse(MarketSchema(), Obj(m - {k})).Ok?
  {
    MarketOptionalFields(k);
    ParsedWithoutKey(MarketSchema().fields, m, k);
  }
}
