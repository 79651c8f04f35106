/**
 * The order helpers of the trading gateway client (`src/services/orders.js`):
 * code-to-label maps, the UI shape of an order, the open-order filter and the
 * request bodies built before an order is placed or modified.
 *
 * Property reads are `JsOpt` values (absent, `null` or present). Order and
 * account ids and the numeric codes are integers; sizes and prices are exact
 * reals. The HTTP call itself is not part of this model: a search is given the
 * gateway's response, and place/modify produce the body they would post.
 */
module Orders {
  import opened Wrappers
  import opened Text
  import opened JsValues
  import opened Sequences

  const ORDER_SIDE: map<int, string> := map[0 := "Buy", 1 := "Sell"]
  const ORDER_TYPE: map<int, string> :=
    map[1 := "Limit", 2 := "Market", 4 := "Stop", 5 := "TrailingStop", 6 := "JoinBid", 7 := "JoinAsk"]
  const ORDER_STATUS: map<int, string> :=
    map[0 := "New", 1 := "Working", 2 := "Filled", 3 := "Cancelled", 4 := "Rejected",
        5 := "PartiallyFilled", 6 := "Expired"]

  const FILLED := "Filled"
  const MARKET_TYPE := 2
  const FILLED_STATUS := 2

  /** `String(v)` for an optional integer code. */
  function CodeText(code: JsOpt<int>): string {
    match code
    case Undefined => "undefined"
    case Null => "null"
    case Defined(c) => IntToString(c)
  }

  /** `mapOrCode`: the label the map gives the code, or the code's own text. */
  function MapOrCode(labels: map<int, string>, code: JsOpt<int>): (r: string)
    ensures code.Defined? && code.value in labels ==> r == labels[code.value]
    ensures !(code.Defined? && code.value in labels) ==> r == CodeText(code)
  {
    if code.Defined? && code.value in labels then labels[code.value] else CodeText(code)
  }

  /** The text of an integer never starts with a capital letter. */
  lemma CodeTextIsNotFilled(code: JsOpt<int>)
    ensures CodeText(code) != FILLED
  {
    if code.Defined? {
      var t := IntToString(code.value);
      if code.value < 0 {
        assert t[0] == '-';
      } else {
        assert IsDigit(t[0]);
      }
    }
  }

  /** The status label is `"Filled"` exactly for status code 2. */
  lemma StatusFilledIff(code: JsOpt<int>)
    ensures MapOrCode(ORDER_STATUS, code) == FILLED <==> code == Defined(FILLED_STATUS)
  {
    CodeTextIsNotFilled(code);
    if code.Defined? && code.value in ORDER_STATUS && code.value != FILLED_STATUS {
      assert |ORDER_STATUS[code.value]| != |FILLED|;
    }
  }

  /** `v ?? null` */
  function OrNull<T>(v: JsOpt<T>): (r: JsOpt<T>)
    ensures !r.Undefined? && (v.Defined? ==> r == v)
    ensures !v.Defined? ==> r == Null
  {
    if v.Defined? then v else Null
  }

  /** `a ?? b` */
  function Nullish<T>(a: JsOpt<T>, b: JsOpt<T>): JsOpt<T> {
    if a.Defined? then a else b
  }

  /** An order as the gateway reports it. */
  datatype ApiOrder = ApiOrder(
    id: JsOpt<int>, accountId: JsOpt<int>, contractId: JsOpt<string>, symbolId: JsOpt<string>,
    creationTimestamp: JsOpt<string>, updateTimestamp: JsOpt<string>,
    status: JsOpt<int>, orderType: JsOpt<int>, side: JsOpt<int>, size: JsOpt<real>,
    limitPrice: JsOpt<real>, stopPrice: JsOpt<real>, trailPrice: JsOpt<real>,
    fillVolume: JsOpt<real>, filledPrice: JsOpt<real>, customTag: JsOpt<string>)

  /** The UI shape built by `normalizeOrder`. */
  datatype Order = Order(
    id: JsOpt<int>, accountId: JsOpt<int>, contractId: JsOpt<string>, symbolId: JsOpt<string>,
    createdAt: JsOpt<string>, updatedAt: JsOpt<string>,
    statusCode: JsOpt<int>, status: string, typeCode: JsOpt<int>, typeLabel: string,
    sideCode: JsOpt<int>, side: string, size: JsOpt<real>,
    limitPrice: JsOpt<real>, stopPrice: JsOpt<real>, trailPrice: JsOpt<real>,
    fillVolume: JsOpt<real>, filledPrice: JsOpt<real>, customTag: JsOpt<string>)

  /**
   * `fillVolume >= size` once `fillVolume` is known not to be `null`: a `null` size
   * compares as 0 and an absent one as NaN, which no comparison satisfies.
   */
  predicate FillReachesSize(fillVolume: JsOpt<real>, size: JsOpt<real>) {
    fillVolume.Defined? &&
    match size
    case Undefined => false
    case Null => fillVolume.value >= 0.0
    case Defined(s) => fillVolume.value >= s
  }

  /** A market order whose fill volume has reached its size. */
  predicate IsFilledMarketOrder(o: ApiOrder) {
    o.orderType == Defined(MARKET_TYPE) && FillReachesSize(OrNull(o.fillVolume), o.size)
  }

  /**
   * What `normalizeOrder` returns: the gateway's fields, `updatedAt` falling back to the
   * creation time, absent optional fields as `null`, labels for the codes, and status
   * code 2 for a market order already filled.
   */
  function NormalizedOrderOf(o: ApiOrder): (r: Order)
    ensures r.id == o.id && r.accountId == o.accountId && r.contractId == o.contractId && r.size == o.size
    ensures r.statusCode == o.status || r.statusCode == Defined(FILLED_STATUS)
    ensures r.status == MapOrCode(ORDER_STATUS, r.statusCode)
    ensures r.typeLabel == MapOrCode(ORDER_TYPE, o.orderType) && r.side == MapOrCode(ORDER_SIDE, o.side)
  {
    var statusCode := if IsFilledMarketOrder(o) then Defined(FILLED_STATUS) else o.status;
    Order(o.id, o.accountId, o.contractId, OrNull(o.symbolId),
          o.creationTimestamp, Nullish(o.updateTimestamp, o.creationTimestamp),
          statusCode, MapOrCode(ORDER_STATUS, statusCode),
          o.orderType, MapOrCode(ORDER_TYPE, o.orderType),
          o.side, MapOrCode(ORDER_SIDE, o.side), o.size,
          OrNull(o.limitPrice), OrNull(o.stopPrice), OrNull(o.trailPrice),
          OrNull(o.fillVolume), OrNull(o.filledPrice), OrNull(o.customTag))
  }

  /** `normalizeOrder`: build the UI object, then force a filled market order to Filled. */
  method NormalizeOrder(o: ApiOrder) returns (order: Order)
    ensures order == NormalizedOrderOf(o)
  {
    order := Order(o.id, o.accountId, o.contractId, OrNull(o.symbolId),
                   o.creationTimestamp, Nullish(o.updateTimestamp, o.creationTimestamp),
                   o.status, MapOrCode(ORDER_STATUS, o.status),
                   o.orderType, MapOrCode(ORDER_TYPE, o.orderType),
                   o.side, MapOrCode(ORDER_SIDE, o.side), o.size,
                   OrNull(o.limitPrice), OrNull(o.stopPrice), OrNull(o.trailPrice),
                   OrNull(o.fillVolume), OrNull(o.filledPrice), OrNull(o.customTag));
    StatusFilledIff(o.status);
    if order.typeCode == Defined(MARKET_TYPE) && order.fillVolume != Null
       && FillReachesSize(order.fillVolume, order.size) && order.status != ORDER_STATUS[FILLED_STATUS] {
      order := order.(statusCode := Defined(FILLED_STATUS));
      order := order.(status := ORDER_STATUS[FILLED_STATUS]);
    }
  }

  /** The status label always names the status code, before and after the correction. */
  lemma StatusLabelMatchesCode(o: ApiOrder)
    ensures var r := NormalizedOrderOf(o);
            r.status == MapOrCode(ORDER_STATUS, r.statusCode)
            && (r.status == FILLED <==> r.statusCode == Defined(FILLED_STATUS))
  {
    StatusFilledIff(NormalizedOrderOf(o).statusCode);
  }

  /** A filled market order is Filled; every other order keeps the gateway's status. */
  lemma FilledMarketOrderIsFilled(o: ApiOrder)
    ensures var r := NormalizedOrderOf(o);
            (IsFilledMarketOrder(o) ==> r.statusCode == Defined(FILLED_STATUS) && r.status == FILLED)
            && (!IsFilledMarketOrder(o) ==> r.statusCode == o.status)
  {
  }

  /**
   * No optional field of the UI shape is absent: a present value passes through unchanged, and
   * an absent or `null` one becomes `null`.
   */
  lemma NormalizedFieldsArePresentOrNull(o: ApiOrder)
    ensures var r := NormalizedOrderOf(o);
            !r.symbolId.Undefined? && !r.limitPrice.Undefined? && !r.stopPrice.Undefined?
            && !r.trailPrice.Undefined? && !r.fillVolume.Undefined? && !r.filledPrice.Undefined?
            && !r.customTag.Undefined?
    ensures var r := NormalizedOrderOf(o);
            (o.symbolId.Defined? ==> r.symbolId == o.symbolId)
            && (o.limitPrice.Defined? ==> r.limitPrice == o.limitPrice)
            && (o.stopPrice.Defined? ==> r.stopPrice == o.stopPrice)
            && (o.trailPrice.Defined? ==> r.trailPrice == o.trailPrice)
            && (o.fillVolume.Defined? ==> r.fillVolume == o.fillVolume)
            && (o.filledPrice.Defined? ==> r.filledPrice == o.filledPrice)
            && (o.customTag.Defined? ==> r.customTag == o.customTag)
    ensures var r := NormalizedOrderOf(o);
            (!o.symbolId.Defined? ==> r.symbolId == Null)
            && (!o.limitPrice.Defined? ==> r.limitPrice == Null)
            && (!o.stopPrice.Defined? ==> r.stopPrice == Null)
            && (!o.trailPrice.Defined? ==> r.trailPrice == Null)
            && (!o.fillVolume.Defined? ==> r.fillVolume == Null)
            && (!o.filledPrice.Defined? ==> r.filledPrice == Null)
            && (!o.customTag.Defined? ==> r.customTag == Null)
    ensures NormalizedOrderOf(o).updatedAt
            == if o.updateTimestamp.Defined? then o.updateTimestamp else o.creationTimestamp
  {
  }

  /** Status codes that end an order: Filled, Cancelled, Rejected, Expired. */
  predicate IsClosedCode(code: JsOpt<int>) {
    code.Defined? && code.value in {2, 3, 4, 6}
  }

  predicate IsOpen(order: Order) {
    !IsClosedCode(order.statusCode)
  }

  /** The gateway's reply to a search. */
  datatype OrdersResponse = OrdersResponse(
    success: bool, orders: JsOpt<seq<ApiOrder>>, errorMessage: JsOpt<string>, errorCode: JsOpt<int>)

  /** `data?.errorMessage || \`<what> failed (code ${data?.errorCode})\`` */
  function ResponseError(response: OrdersResponse, what: string): string {
    if response.errorMessage.Defined? && response.errorMessage.value != "" then response.errorMessage.value
    else what + " failed (code " + CodeText(response.errorCode) + ")"
  }

  /** `!id` for an id read off the parameters: absent, `null` and 0 are missing. */
  predicate IsMissingId(id: JsOpt<int>) {
    !id.Defined? || id.value == 0
  }

  /** `searchOpenOrders`: after the account check, the normalised orders that are still open. */
  function SearchOpenOrders(accountId: JsOpt<int>, response: OrdersResponse): (r: Result<seq<Order>, string>)
    ensures IsMissingId(accountId) ==> r == Failure("accountId is required")
    ensures !IsMissingId(accountId) && !response.success
            ==> r == Failure(ResponseError(response, "Open order search"))
    ensures r.Success? <==> !IsMissingId(accountId) && response.success
    ensures r.Success? ==> forall k :: 0 <= k < |r.value| ==> IsOpen(r.value[k])
  {
    if IsMissingId(accountId) then Failure("accountId is required")
    else if !response.success then Failure(ResponseError(response, "Open order search"))
    else Success(Filter(Map(response.orders.OrElse([]), NormalizedOrderOf), IsOpen))
  }

  /** The open-order list is exactly the normalised orders whose status is not final. */
  lemma OpenOrdersAreTheOpenOnes(accountId: JsOpt<int>, response: OrdersResponse, o: ApiOrder)
    requires !IsMissingId(accountId) && response.success && response.orders.Defined?
    requires o in response.orders.value
    ensures NormalizedOrderOf(o) in SearchOpenOrders(accountId, response).value
            <==> IsOpen(NormalizedOrderOf(o))
  {
    var normalized := Map(response.orders.value, NormalizedOrderOf);
    var k :| 0 <= k < |response.orders.value| && response.orders.value[k] == o;
    assert normalized[k] == NormalizedOrderOf(o);
    if IsOpen(NormalizedOrderOf(o)) {
      FilterKeeps(normalized, IsOpen, NormalizedOrderOf(o));
    } else if NormalizedOrderOf(o) in Filter(normalized, IsOpen) {
      FilterMember(normalized, IsOpen, NormalizedOrderOf(o));
    }
  }

  /** A market order the gateway still calls Working but that has filled is never listed as open. */
  lemma FilledMarketOrderIsNotOpen(o: ApiOrder)
    requires IsFilledMarketOrder(o)
    ensures !IsOpen(NormalizedOrderOf(o))
  {
  }

  /** The fields `placeOrder` insists on, in the order it checks them. */
  datatype RequiredField = AccountIdField | ContractIdField | TypeField | SideField | SizeField

  function FieldRank(f: RequiredField): nat {
    match f
    case AccountIdField => 0
    case ContractIdField => 1
    case TypeField => 2
    case SideField => 3
    case SizeField => 4
  }

  /** `f` is checked before `g`. */
  predicate Before(f: RequiredField, g: RequiredField) {
    FieldRank(f) < FieldRank(g)
  }

  function FieldName(f: RequiredField): string {
    match f
    case AccountIdField => "accountId"
    case ContractIdField => "contractId"
    case TypeField => "type"
    case SideField => "side"
    case SizeField => "size"
  }

  datatype PlaceOrderParams = PlaceOrderParams(
    accountId: JsOpt<int>, contractId: JsOpt<string>, orderType: JsOpt<int>, side: JsOpt<int>,
    size: JsOpt<real>, limitPrice: JsOpt<real>, stopPrice: JsOpt<real>, trailPrice: JsOpt<real>,
    customTag: JsOpt<string>, linkedOrderId: JsOpt<int>)

  /** The body `placeOrder` posts. */
  datatype PlaceOrderBody = PlaceOrderBody(
    accountId: int, contractId: string, orderType: int, side: int, size: real,
    limitPrice: JsOpt<real>, stopPrice: JsOpt<real>, trailPrice: JsOpt<real>,
    customTag: JsOpt<string>, linkedOrderId: JsOpt<int>)

  /** Whether the parameters hold a value (neither `undefined` nor `null`) for `f`. */
  predicate HasField(p: PlaceOrderParams, f: RequiredField) {
    match f
    case AccountIdField => p.accountId.Defined?
    case ContractIdField => p.contractId.Defined?
    case TypeField => p.orderType.Defined?
    case SideField => p.side.Defined?
    case SizeField => p.size.Defined?
  }

  /** Every required field holds a value. */
  predicate HasRequiredFields(p: PlaceOrderParams) {
    p.accountId.Defined? && p.contractId.Defined? && p.orderType.Defined? && p.side.Defined? && p.size.Defined?
  }

  /** The first required field, in checking order, that the parameters lack. */
  function FirstMissingField(p: PlaceOrderParams): (r: Option<RequiredField>)
    ensures r.None? <==> HasRequiredFields(p)
    ensures r.Some? ==> !HasField(p, r.value)
    ensures r.Some? ==> forall f :: Before(f, r.value) ==> HasField(p, f)
  {
    if !p.accountId.Defined? then Some(AccountIdField)
    else if !p.contractId.Defined? then Some(ContractIdField)
    else if !p.orderType.Defined? then Some(TypeField)
    else if !p.side.Defined? then Some(SideField)
    else if !p.size.Defined? then Some(SizeField)
    else None
  }

  /**
   * The checks and defaults of `placeOrder`: missing parameters fail on `accountId`; a
   * missing required field fails naming it; present ones are posted, and the optional
   * fields default to `null`.
   */
  function PlaceOrderBodyOf(params: Option<PlaceOrderParams>): (r: Result<PlaceOrderBody, string>)
    ensures params.None? ==> r == Failure("accountId is required")
    ensures params.Some? ==> (r.Failure? <==> !HasRequiredFields(params.value))
    ensures params.Some? && r.Failure? ==> r.error == FieldName(FirstMissingField(params.value).value) + " is required"
    ensures r.Success? ==> params.Some? && HasRequiredFields(params.value)
    ensures r.Success? ==> var p := params.value;
              HasRequiredFields(p) &&
              r.value.accountId == p.accountId.value && r.value.contractId == p.contractId.value
              && r.value.orderType == p.orderType.value && r.value.side == p.side.value
              && r.value.size == p.size.value
              && r.value.limitPrice == OrNull(p.limitPrice) && r.value.stopPrice == OrNull(p.stopPrice)
              && r.value.trailPrice == OrNull(p.trailPrice) && r.value.customTag == OrNull(p.customTag)
              && r.value.linkedOrderId == OrNull(p.linkedOrderId)
  {
    if params.None? then Failure("accountId is required")
    else
      var p := params.value;
      match FirstMissingField(p)
      case Some(f) => Failure(FieldName(f) + " is required")
      case None =>
        Success(PlaceOrderBody(p.accountId.value, p.contractId.value, p.orderType.value, p.side.value,
                               p.size.value, OrNull(p.limitPrice), OrNull(p.stopPrice), OrNull(p.trailPrice),
                               OrNull(p.customTag), OrNull(p.linkedOrderId)))
  }

  datatype ModifyOrderParams = ModifyOrderParams(
    accountId: JsOpt<int>, orderId: JsOpt<int>, size: JsOpt<real>,
    limitPrice: JsOpt<real>, stopPrice: JsOpt<real>, trailPrice: JsOpt<real>)

  /** The keys a modify body may carry. */
  datatype BodyKey = AccountIdKey | OrderIdKey | SizeKey | LimitPriceKey | StopPriceKey | TrailPriceKey

  /** A JSON value in a request body. */
  datatype BodyValue = IntValue(i: int) | NumberValue(x: real) | NullValue

  function KeyName(k: BodyKey): string {
    match k
    case AccountIdKey => "accountId"
    case OrderIdKey => "orderId"
    case SizeKey => "size"
    case LimitPriceKey => "limitPrice"
    case StopPriceKey => "stopPrice"
    case TrailPriceKey => "trailPrice"
  }

  /** A number parameter that is not `undefined`, as JSON. */
  function NumberOrNull(v: JsOpt<real>): BodyValue {
    if v.Defined? then NumberValue(v.value) else NullValue
  }

  /** The keys `modifyOrder` sends for the given parameters. */
  function ModifyKeys(p: ModifyOrderParams): set<BodyKey> {
    {AccountIdKey, OrderIdKey}
    + (if p.size.Undefined? then {} else {SizeKey})
    + (if p.limitPrice.Undefined? then {} else {LimitPriceKey})
    + (if p.stopPrice.Undefined? then {} else {StopPriceKey})
    + (if p.trailPrice.Undefined? then {} else {TrailPriceKey})
  }

  /**
   * `modifyOrder`'s body: it fails without both ids; otherwise the ids, plus each optional
   * field that is not `undefined` (a `null` is sent as `null`), and nothing else.
   */
  method ModifyOrderBody(p: ModifyOrderParams) returns (r: Result<map<BodyKey, BodyValue>, string>)
    ensures r.Failure? <==> IsMissingId(p.accountId) || IsMissingId(p.orderId)
    ensures r.Failure? ==> r.error == "accountId and orderId are required"
    ensures r.Success? ==> r.value.Keys == ModifyKeys(p)
    ensures r.Success? ==> r.value[AccountIdKey] == IntValue(p.accountId.value)
                           && r.value[OrderIdKey] == IntValue(p.orderId.value)
    ensures r.Success? ==> (SizeKey in r.value ==> r.value[SizeKey] == NumberOrNull(p.size))
                           && (LimitPriceKey in r.value ==> r.value[LimitPriceKey] == NumberOrNull(p.limitPrice))
                           && (StopPriceKey in r.value ==> r.value[StopPriceKey] == NumberOrNull(p.stopPrice))
                           && (TrailPriceKey in r.value ==> r.value[TrailPriceKey] == NumberOrNull(p.trailPrice))
  {
    if IsMissingId(p.accountId) || IsMissingId(p.orderId) {
      return Failure("accountId and orderId are required");
    }
    var body := map[AccountIdKey := IntValue(p.accountId.value), OrderIdKey := IntValue(p.orderId.value)];
    if !p.size.Undefined? {
      body := body[SizeKey := NumberOrNull(p.size)];
    }
    if !p.limitPrice.Undefined? {
      body := body[LimitPriceKey := NumberOrNull(p.limitPrice)];
    }
    if !p.stopPrice.Undefined? {
      body := body[StopPriceKey := NumberOrNull(p.stopPrice)];
    }
    if !p.trailPrice.Undefined? {
      body := body[TrailPriceKey := NumberOrNull(p.trailPrice)];
    }
    return Success(body);
  }
}
