/** The entities of the subscription store: the record kept per subscription,
    the shapes the store accepts for creating and patching one, and the
    store state with its filter and sort fields. */
module Types {

  /** An optional value; `None` stands for an absent (undefined) property. */
  datatype Option<+T> = None | Some(value: T) {
    function GetOr(default: T): T {
      match this
      case Some(v) => v
      case None => default
    }
  }

  /** Milliseconds since the epoch, the value `Date.getTime()` yields. */
  type Instant = int

  /** Milliseconds in one day: 1000 * 60 * 60 * 24. */
  const DAY: int := 86_400_000

  datatype BillingCycle = Monthly | Yearly

  datatype SortKey = ByName | ByPrice | ByRenewalDate

  datatype SortOrder = Asc | Desc

  /** One subscription record. The date strings of the source are instants here. */
  datatype Subscription = Subscription(
    id: string,
    name: string,
    price: real,
    renewalDate: Instant,
    paymentMethod: string,
    category: string,
    notes: Option<string>,
    isActive: bool,
    color: string,
    icon: string,
    currency: string,
    billingCycle: BillingCycle,
    createdAt: Instant,
    updatedAt: Instant)

  /** A record without the fields the store fills in itself (id, createdAt, updatedAt). */
  datatype Draft = Draft(
    name: string,
    price: real,
    renewalDate: Instant,
    paymentMethod: string,
    category: string,
    notes: Option<string>,
    isActive: bool,
    color: string,
    icon: string,
    currency: string,
    billingCycle: BillingCycle)

  /** A partial record: `Some` marks a property present in the patch. The notes
      property may be present with the value undefined, hence the nested option. */
  datatype Patch = Patch(
    id: Option<string>,
    name: Option<string>,
    price: Option<real>,
    renewalDate: Option<Instant>,
    paymentMethod: Option<string>,
    category: Option<string>,
    notes: Option<Option<string>>,
    isActive: Option<bool>,
    color: Option<string>,
    icon: Option<string>,
    currency: Option<string>,
    billingCycle: Option<BillingCycle>,
    createdAt: Option<Instant>,
    updatedAt: Option<Instant>)

  const EmptyPatch: Patch :=
    Patch(None, None, None, None, None, None, None, None, None, None, None, None, None, None)

  /** The store: the ordered collection plus the filter and sort state. */
  datatype State = State(
    subscriptions: seq<Subscription>,
    searchTerm: string,
    filterCategory: string,
    sortBy: SortKey,
    sortOrder: SortOrder)

  /** The price of one record brought to a monthly amount. */
  function MonthlyPrice(sub: Subscription): (r: real)
    ensures sub.billingCycle == Monthly ==> r == sub.price
    ensures sub.billingCycle == Yearly ==> r * 12.0 == sub.price
    ensures sub.price >= 0.0 ==> 0.0 <= r <= sub.price
  {
    if sub.billingCycle == Yearly then sub.price / 12.0 else sub.price
  }

  /** No two records of the collection share an id. */
  predicate IdsUnique(s: seq<Subscription>) {
    forall i, j :: 0 <= i < j < |s| ==> s[i].id != s[j].id
  }

  /** `id` is used by no record of the collection. */
  predicate IdFresh(s: seq<Subscription>, id: string) {
    forall i :: 0 <= i < |s| ==> s[i].id != id
  }

  /** Every record was last updated no earlier than it was created. */
  predicate TimestampsOrdered(s: seq<Subscription>) {
    forall i :: 0 <= i < |s| ==> s[i].createdAt <= s[i].updatedAt
  }

  /** No record carries a timestamp later than `now`. */
  predicate NotAfter(s: seq<Subscription>, now: Instant) {
    forall i :: 0 <= i < |s| ==> s[i].createdAt <= now && s[i].updatedAt <= now
  }
}
