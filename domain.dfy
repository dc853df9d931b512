/**
 * The order record and its validator (internal/domain/order.go).
 *
 * Each validator is a chain of guards that returns the first rule the record
 * breaks. Beside each chain sits a declarative reading of it: a predicate
 * `...Breaks(x, e)` saying which rule the error `e` stands for, and a rank
 * giving the order in which the rules are tried. Every validator is proved to
 * pass exactly when no rule is broken, and to fail with a broken rule such
 * that no rule of lower rank is broken.
 */
module Domain {
  import opened Wrappers

  datatype Delivery = Delivery(name: string, phone: string, zip: string, city: string,
                               address: string, region: string, email: string)

  datatype Payment = Payment(transaction: string, requestId: string, currency: string,
                             provider: string, amount: int, paymentDt: int, bank: string,
                             deliveryCost: int, goodsTotal: int, customFee: int)

  datatype Item = Item(chrtId: int, trackNumber: string, price: int, rid: string,
                       name: string, sale: int, size: string, totalPrice: int,
                       nmId: int, brand: string, status: int)

  datatype Order = Order(orderUid: string, trackNumber: string, entry: string,
                         delivery: Delivery, payment: Payment, items: seq<Item>,
                         locale: string, internalSignature: string, customerId: string,
                         deliveryService: string, shardkey: string, smId: int,
                         dateCreated: string, oofShard: string)

  /** Go's zero value `domain.Order{}`, returned beside `false` on a miss. */
  const ZeroOrder := Order("", "", "", Delivery("", "", "", "", "", "", ""),
                           Payment("", "", "", "", 0, 0, "", 0, 0, 0), [],
                           "", "", "", "", "", 0, "", "")

  /** Longest accepted order uid, counted in bytes as Go's `len` does. */
  const MaxOrderUidBytes := 100

  /** Stands for `time.Parse(time.RFC3339, s) == nil`; the layout parser is not modelled. */
  type DateParser = string -> bool

  // ---------------------------------------------------------------------------
  // Byte length of a string (Go's `len` on a string counts UTF-8 bytes)

  function RuneWidth(c: char): (w: nat)
    ensures 1 <= w <= 4
    ensures w == 1 <==> c as int < 0x80
  {
    if c as int < 0x80 then 1
    else if c as int < 0x800 then 2
    else if c as int < 0x1_0000 then 3
    else 4
  }

  /** Number of bytes of the UTF-8 encoding of `s`. */
  function ByteLen(s: string): (n: nat)
    ensures |s| <= n <= 4 * |s|
    ensures n == |s| <==> forall i | 0 <= i < |s| :: s[i] as int < 0x80
  {
    if s == [] then 0
    else
      var rest := ByteLen(s[1..]);
      assert forall i | 1 <= i < |s| :: s[1..][i - 1] == s[i];
      RuneWidth(s[0]) + rest
  }

  // ---------------------------------------------------------------------------
  // The e-mail pattern ^[a-z0-9._%+\-]+@[a-z0-9.\-]+\.[a-z]{2,}$

  predicate LocalChar(c: char) {
    'a' <= c <= 'z' || '0' <= c <= '9' || c == '.' || c == '_' || c == '%' || c == '+' || c == '-'
  }

  predicate HostChar(c: char) {
    'a' <= c <= 'z' || '0' <= c <= '9' || c == '.' || c == '-'
  }

  predicate LowerLetter(c: char) {
    'a' <= c <= 'z'
  }

  /** Every character of `s[lo..hi]` is a local character. */
  predicate LocalRun(s: string, lo: int, hi: int)
    requires 0 <= lo <= hi <= |s|
  {
    forall i | lo <= i < hi :: LocalChar(s[i])
  }

  predicate HostRun(s: string, lo: int, hi: int)
    requires 0 <= lo <= hi <= |s|
  {
    forall i | lo <= i < hi :: HostChar(s[i])
  }

  predicate LetterRun(s: string, lo: int, hi: int)
    requires 0 <= lo <= hi <= |s|
  {
    forall i | lo <= i < hi :: LowerLetter(s[i])
  }

  /** `s` matches the pattern with its '@' at `at` and the '.' before the final label at `dot`. */
  predicate PatternAt(s: string, at: int, dot: int) {
    && 0 < at && at + 1 < dot && dot + 2 < |s|
    && s[at] == '@' && s[dot] == '.'
    && LocalRun(s, 0, at) && HostRun(s, at + 1, dot) && LetterRun(s, dot + 1, |s|)
  }

  /**
   * The language of the pattern: an '@' and a '.' cut `s` into a non-empty
   * local run, a non-empty host run and a final label of at least two
   * lower-case letters.
   */
  predicate EmailPattern(s: string) {
    exists at, dot | 0 <= at < |s| && 0 <= dot < |s| :: PatternAt(s, at, dot)
  }

  /** Position of the first `c` in `s`, or -1. */
  function IndexOf(s: string, c: char): (k: int)
    ensures -1 <= k < |s|
    ensures k >= 0 ==> s[k] == c
    ensures forall i | 0 <= i < |s| && (k < 0 || i < k) :: s[i] != c
  {
    if s == [] then -1
    else if s[0] == c then 0
    else
      var k := IndexOf(s[1..], c);
      assert forall i | 1 <= i < |s| :: s[1..][i - 1] == s[i];
      if k < 0 then -1 else k + 1
  }

  /** Position of the last `c` in `s`, or -1. */
  function LastIndexOf(s: string, c: char): (k: int)
    ensures -1 <= k < |s|
    ensures k >= 0 ==> s[k] == c
    ensures forall i | k < i < |s| :: s[i] != c
  {
    if s == [] then -1
    else if s[|s| - 1] == c then |s| - 1
    else LastIndexOf(s[..|s| - 1], c)
  }

  /**
   * The same language read as a scan: the first '@' is not the first
   * character, everything before it is a local character, everything after it
   * a host character, and the last '.' after it is neither right after the
   * '@' nor followed by fewer than two characters, which are all lower-case
   * letters.
   */
  predicate EmailShape(s: string) {
    var at := IndexOf(s, '@');
    && 0 < at
    && LocalRun(s, 0, at)
    && HostRun(s, at + 1, |s|)
    && (var dot := at + 1 + LastIndexOf(s[at + 1..], '.');
        at + 1 < dot && dot + 2 < |s| && LetterRun(s, dot + 1, |s|))
  }

  /** The pattern and the scan accept the same strings. */
  lemma EmailPatternIsShape(s: string)
    ensures EmailPattern(s) <==> EmailShape(s)
  {
    if EmailPattern(s) {
      var at, dot :| 0 <= at < |s| && 0 <= dot < |s| && PatternAt(s, at, dot);
      var a := IndexOf(s, '@');
      assert s[at] == '@';
      assert 0 <= a <= at;
      assert a == at;
      var host := s[at + 1..];
      var l := LastIndexOf(host, '.');
      assert host[dot - at - 1] == '.';
      assert l >= dot - at - 1;
      assert host[l] == s[at + 1 + l];
      assert l == dot - at - 1;
      assert HostRun(s, at + 1, |s|) by {
        forall i | at + 1 <= i < |s| ensures HostChar(s[i]) {
          if i > dot { assert LowerLetter(s[i]); }
        }
      }
    }
    if EmailShape(s) {
      var at := IndexOf(s, '@');
      var dot := at + 1 + LastIndexOf(s[at + 1..], '.');
      assert s[at + 1..][dot - at - 1] == s[dot];
      assert PatternAt(s, at, dot);
    }
  }

  /** What the pattern implies: one '@', no upper-case letter, a final label of two or more letters. */
  lemma EmailPatternFacts(s: string)
    requires EmailPattern(s)
    ensures '@' in s
    ensures forall i, j | 0 <= i < j < |s| :: !(s[i] == '@' && s[j] == '@')
    ensures forall i | 0 <= i < |s| :: !('A' <= s[i] <= 'Z')
    ensures var dot := LastIndexOf(s, '.');
              0 <= dot && dot + 2 < |s| && LetterRun(s, dot + 1, |s|)
  {
    var at, dot :| 0 <= at < |s| && 0 <= dot < |s| && PatternAt(s, at, dot);
    assert s[at] in s;
    forall i | 0 <= i < |s| ensures s[i] == '@' ==> i == at
    {
      if i < at { assert LocalChar(s[i]); }
      else if at < i < dot { assert HostChar(s[i]); }
      else if dot < i { assert LowerLetter(s[i]); }
    }
    forall i | 0 <= i < |s| ensures !('A' <= s[i] <= 'Z')
    {
      if i < at { assert LocalChar(s[i]); }
      else if at < i < dot { assert HostChar(s[i]); }
      else if dot < i { assert LowerLetter(s[i]); }
    }
    var l := LastIndexOf(s, '.');
    assert s[dot] == '.';
    assert l >= dot;
    assert l == dot;
  }

  // ---------------------------------------------------------------------------
  // Item.Validate

  datatype ItemError =
    | ChrtIdNotPositive
    | ItemTrackNumberMissing
    | PriceNotPositive
    | ItemNameMissing
    | TotalPriceNotPositive
    | NmIdNotPositive

  /** The rule that error `e` reports broken. */
  predicate ItemBreaks(it: Item, e: ItemError) {
    match e
    case ChrtIdNotPositive => it.chrtId <= 0
    case ItemTrackNumberMissing => it.trackNumber == ""
    case PriceNotPositive => it.price <= 0
    case ItemNameMissing => it.name == ""
    case TotalPriceNotPositive => it.totalPrice <= 0
    case NmIdNotPositive => it.nmId <= 0
  }

  /** Position of the rule in the guard chain. */
  function ItemRank(e: ItemError): nat {
    match e
    case ChrtIdNotPositive => 0
    case ItemTrackNumberMissing => 1
    case PriceNotPositive => 2
    case ItemNameMissing => 3
    case TotalPriceNotPositive => 4
    case NmIdNotPositive => 5
  }

  function ValidateItem(it: Item): (r: Outcome<ItemError>)
    ensures r.Fail? ==> ItemBreaks(it, r.error)
    ensures r.Pass? ==> forall e :: !ItemBreaks(it, e)
    ensures r.Fail? ==> forall e | ItemRank(e) < ItemRank(r.error) :: !ItemBreaks(it, e)
  {
    if it.chrtId <= 0 then Fail(ChrtIdNotPositive)
    else if it.trackNumber == "" then Fail(ItemTrackNumberMissing)
    else if it.price <= 0 then Fail(PriceNotPositive)
    else if it.name == "" then Fail(ItemNameMissing)
    else if it.totalPrice <= 0 then Fail(TotalPriceNotPositive)
    else if it.nmId <= 0 then Fail(NmIdNotPositive)
    else Pass
  }

  // ---------------------------------------------------------------------------
  // Payment.Validate

  datatype PaymentError =
    | TransactionMissing
    | CurrencyMissing
    | AmountNotPositive
    | PaymentDtNotPositive

  predicate PaymentBreaks(p: Payment, e: PaymentError) {
    match e
    case TransactionMissing => p.transaction == ""
    case CurrencyMissing => p.currency == ""
    case AmountNotPositive => p.amount <= 0
    case PaymentDtNotPositive => p.paymentDt <= 0
  }

  function PaymentRank(e: PaymentError): nat {
    match e
    case TransactionMissing => 0
    case CurrencyMissing => 1
    case AmountNotPositive => 2
    case PaymentDtNotPositive => 3
  }

  function ValidatePayment(p: Payment): (r: Outcome<PaymentError>)
    ensures r.Fail? ==> PaymentBreaks(p, r.error)
    ensures r.Pass? ==> forall e :: !PaymentBreaks(p, e)
    ensures r.Fail? ==> forall e | PaymentRank(e) < PaymentRank(r.error) :: !PaymentBreaks(p, e)
  {
    if p.transaction == "" then Fail(TransactionMissing)
    else if p.currency == "" then Fail(CurrencyMissing)
    else if p.amount <= 0 then Fail(AmountNotPositive)
    else if p.paymentDt <= 0 then Fail(PaymentDtNotPositive)
    else Pass
  }

  // ---------------------------------------------------------------------------
  // Delivery.Validate

  datatype DeliveryError =
    | RecipientMissing
    | PhoneMissing
    | CityMissing
    | AddressMissing
    | EmailMalformed

  predicate DeliveryBreaks(d: Delivery, e: DeliveryError) {
    match e
    case RecipientMissing => d.name == ""
    case PhoneMissing => d.phone == ""
    case CityMissing => d.city == ""
    case AddressMissing => d.address == ""
    case EmailMalformed => d.email != "" && !EmailPattern(d.email)
  }

  function DeliveryRank(e: DeliveryError): nat {
    match e
    case RecipientMissing => 0
    case PhoneMissing => 1
    case CityMissing => 2
    case AddressMissing => 3
    case EmailMalformed => 4
  }

  function ValidateDelivery(d: Delivery): (r: Outcome<DeliveryError>)
    ensures r.Fail? ==> DeliveryBreaks(d, r.error)
    ensures r.Pass? ==> forall e :: !DeliveryBreaks(d, e)
    ensures r.Fail? ==> forall e | DeliveryRank(e) < DeliveryRank(r.error) :: !DeliveryBreaks(d, e)
  {
    if d.name == "" then Fail(RecipientMissing)
    else if d.phone == "" then Fail(PhoneMissing)
    else if d.city == "" then Fail(CityMissing)
    else if d.address == "" then Fail(AddressMissing)
    else if d.email != "" && !EmailPattern(d.email) then Fail(EmailMalformed)
    else Pass
  }

  // ---------------------------------------------------------------------------
  // Order.Validate

  datatype OrderError =
    | OrderUidMissing
    | OrderUidTooLong
    | TrackNumberMissing
    | EntryMissing
    | DateCreatedMalformed
    | DeliveryInvalid(deliveryCause: DeliveryError)
    | PaymentInvalid(paymentCause: PaymentError)
    | ItemsMissing
    | ItemInvalid(index: nat, itemCause: ItemError)

  /** The rule that `e` reports broken; a nested record's error is the one its own validator returns. */
  predicate OrderBreaks(o: Order, dateOk: DateParser, e: OrderError) {
    match e
    case OrderUidMissing => o.orderUid == ""
    case OrderUidTooLong => ByteLen(o.orderUid) > MaxOrderUidBytes
    case TrackNumberMissing => o.trackNumber == ""
    case EntryMissing => o.entry == ""
    case DateCreatedMalformed => o.dateCreated != "" && !dateOk(o.dateCreated)
    case DeliveryInvalid(c) => ValidateDelivery(o.delivery) == Fail(c)
    case PaymentInvalid(c) => ValidatePayment(o.payment) == Fail(c)
    case ItemsMissing => |o.items| == 0
    case ItemInvalid(k, c) => k < |o.items| && ValidateItem(o.items[k]) == Fail(c)
  }

  /** Order of the checks: header fields, date, delivery, payment, item count, then items by index. */
  function OrderRank(e: OrderError): nat {
    match e
    case OrderUidMissing => 0
    case OrderUidTooLong => 1
    case TrackNumberMissing => 2
    case EntryMissing => 3
    case DateCreatedMalformed => 4
    case DeliveryInvalid(_) => 5
    case PaymentInvalid(_) => 6
    case ItemsMissing => 7
    case ItemInvalid(k, _) => 8 + k
  }

  /** The item loop of Order.Validate from index `from` on: the first bad item, with its index. */
  function ValidateItems(items: seq<Item>, from: nat): (r: Outcome<OrderError>)
    requires from <= |items|
    ensures r.Pass? <==> forall k | from <= k < |items| :: ValidateItem(items[k]).Pass?
    ensures r.Fail? ==> r.error.ItemInvalid? && from <= r.error.index < |items|
    ensures r.Fail? ==> ValidateItem(items[r.error.index]) == Fail(r.error.itemCause)
    ensures r.Fail? ==> forall k | from <= k < r.error.index :: ValidateItem(items[k]).Pass?
    decreases |items| - from
  {
    if from == |items| then Pass
    else
      match ValidateItem(items[from])
      case Fail(c) => Fail(ItemInvalid(from, c))
      case Pass => ValidateItems(items, from + 1)
  }

  function ValidateOrder(o: Order, dateOk: DateParser): (r: Outcome<OrderError>)
    ensures r.Fail? ==> OrderBreaks(o, dateOk, r.error)
    ensures r.Pass? ==> forall e :: !OrderBreaks(o, dateOk, e)
    ensures r.Fail? ==> forall e | OrderRank(e) < OrderRank(r.error) :: !OrderBreaks(o, dateOk, e)
  {
    if o.orderUid == "" then Fail(OrderUidMissing)
    else if ByteLen(o.orderUid) > MaxOrderUidBytes then Fail(OrderUidTooLong)
    else if o.trackNumber == "" then Fail(TrackNumberMissing)
    else if o.entry == "" then Fail(EntryMissing)
    else if o.dateCreated != "" && !dateOk(o.dateCreated) then Fail(DateCreatedMalformed)
    else if ValidateDelivery(o.delivery).Fail? then Fail(DeliveryInvalid(ValidateDelivery(o.delivery).error))
    else if ValidatePayment(o.payment).Fail? then Fail(PaymentInvalid(ValidatePayment(o.payment).error))
    else if |o.items| == 0 then Fail(ItemsMissing)
    else ValidateItems(o.items, 0)
  }

  /** The rules a persisted order keeps: a uid of 1 to 100 bytes and at least one item, whatever the rest. */
  lemma ValidOrderShape(o: Order, dateOk: DateParser)
    requires ValidateOrder(o, dateOk).Pass?
    ensures o.orderUid != "" && ByteLen(o.orderUid) <= MaxOrderUidBytes
    ensures |o.items| > 0
    ensures forall k | 0 <= k < |o.items| ::
              o.items[k].price > 0 && o.items[k].totalPrice > 0 && o.items[k].nmId > 0
    ensures o.delivery.name != ""
    ensures o.dateCreated == "" || dateOk(o.dateCreated)
  {
    assert !OrderBreaks(o, dateOk, OrderUidMissing);
    assert !OrderBreaks(o, dateOk, OrderUidTooLong);
    assert !OrderBreaks(o, dateOk, ItemsMissing);
    assert !OrderBreaks(o, dateOk, DateCreatedMalformed);
    assert ValidateDelivery(o.delivery).Pass? by {
      if ValidateDelivery(o.delivery).Fail? {
        assert OrderBreaks(o, dateOk, DeliveryInvalid(ValidateDelivery(o.delivery).error));
      }
    }
    assert !DeliveryBreaks(o.delivery, RecipientMissing);
    forall k | 0 <= k < |o.items|
      ensures o.items[k].price > 0 && o.items[k].totalPrice > 0 && o.items[k].nmId > 0
    {
      if ValidateItem(o.items[k]).Fail? {
        assert OrderBreaks(o, dateOk, ItemInvalid(k, ValidateItem(o.items[k]).error));
      }
      assert !ItemBreaks(o.items[k], PriceNotPositive);
      assert !ItemBreaks(o.items[k], TotalPriceNotPositive);
      assert !ItemBreaks(o.items[k], NmIdNotPositive);
    }
  }
}
