/** The add-subscription form: the validation schema, the coercion of the
    price input, and the submission that hands a new active record to the
    store. */
module Form {
  import opened Types
  import Store
  import Expenses

  /** The form's values as entered; the billing cycle is still the text of
      the select and the renewal date the text of the date input. */
  datatype FormValues = FormValues(
    name: string,
    price: real,
    renewalDate: string,
    paymentMethod: string,
    category: string,
    notes: Option<string>,
    color: string,
    currency: string,
    billingCycle: string)

  /** The schema's output: every rule passed and the cycle is one of the two. */
  datatype Checked = Checked(
    name: string,
    price: real,
    renewalDate: string,
    paymentMethod: string,
    category: string,
    notes: Option<string>,
    color: string,
    currency: string,
    cycle: BillingCycle)

  datatype Field =
    | NameField | PriceField | RenewalDateField | PaymentMethodField
    | CategoryField | ColorField | CurrencyField | BillingCycleField

  /** Either the parsed value or the fields whose rule failed. */
  datatype Result<T> = Ok(value: T) | Invalid(fields: set<Field>)

  /** The value the billing-cycle select stores for each cycle. */
  function CycleName(c: BillingCycle): string {
    match c
    case Monthly => "monthly"
    case Yearly => "yearly"
  }

  /** The enum rule: only the two names are accepted. */
  function ParseCycle(s: string): (r: Option<BillingCycle>)
    ensures r.Some? <==> s == "monthly" || s == "yearly"
    ensures r.Some? ==> CycleName(r.value) == s
  {
    if s == "monthly" then Some(Monthly)
    else if s == "yearly" then Some(Yearly)
    else None
  }

  lemma CycleRoundTrip(c: BillingCycle)
    ensures ParseCycle(CycleName(c)) == Some(c)
  {
  }

  /** The rule of each field: each string rule is "at least one character",
      the price rule "not below 0", and the cycle rule membership in the
      enum; notes have no rule. */
  predicate Fails(f: FormValues, field: Field) {
    match field
    case NameField => |f.name| < 1
    case PriceField => f.price < 0.0
    case RenewalDateField => |f.renewalDate| < 1
    case PaymentMethodField => |f.paymentMethod| < 1
    case CategoryField => |f.category| < 1
    case ColorField => |f.color| < 1
    case CurrencyField => |f.currency| < 1
    case BillingCycleField => ParseCycle(f.billingCycle).None?
  }

  const AllFields: set<Field> := {
    NameField, PriceField, RenewalDateField, PaymentMethodField,
    CategoryField, ColorField, CurrencyField, BillingCycleField
  }

  /** The failing fields. */
  function Problems(f: FormValues): set<Field> {
    set field | field in AllFields && Fails(f, field)
  }

  /** A form has no failing field exactly when every rule holds. */
  lemma NoProblemsIffRulesHold(f: FormValues)
    ensures Problems(f) == {} <==>
      f.name != [] && f.price >= 0.0 && f.renewalDate != [] && f.paymentMethod != []
      && f.category != [] && f.color != [] && f.currency != []
      && (f.billingCycle == "monthly" || f.billingCycle == "yearly")
  {
    if Problems(f) == {} {
      assert NameField !in Problems(f) && PriceField !in Problems(f);
      assert RenewalDateField !in Problems(f) && PaymentMethodField !in Problems(f);
      assert CategoryField !in Problems(f) && ColorField !in Problems(f);
      assert CurrencyField !in Problems(f) && BillingCycleField !in Problems(f);
    }
  }

  /** The schema: accepts exactly the forms whose required strings are
      non-empty, whose price is not negative and whose cycle is "monthly" or
      "yearly"; a rejection names every failing field and no other. */
  function Validate(f: FormValues): (r: Result<Checked>)
    ensures r.Ok? <==>
      f.name != [] && f.price >= 0.0 && f.renewalDate != [] && f.paymentMethod != []
      && f.category != [] && f.color != [] && f.currency != []
      && (f.billingCycle == "monthly" || f.billingCycle == "yearly")
    ensures r.Invalid? ==> r.fields != {}
    ensures r.Invalid? ==> forall field :: field in r.fields <==> Fails(f, field)
    ensures r.Invalid? ==>
      && (NameField in r.fields <==> f.name == [])
      && (PriceField in r.fields <==> f.price < 0.0)
      && (RenewalDateField in r.fields <==> f.renewalDate == [])
      && (PaymentMethodField in r.fields <==> f.paymentMethod == [])
      && (CategoryField in r.fields <==> f.category == [])
      && (ColorField in r.fields <==> f.color == [])
      && (CurrencyField in r.fields <==> f.currency == [])
      && (BillingCycleField in r.fields <==> f.billingCycle != "monthly" && f.billingCycle != "yearly")
    ensures r.Ok? ==>
      && r.value.name == f.name && r.value.price == f.price
      && r.value.renewalDate == f.renewalDate && r.value.paymentMethod == f.paymentMethod
      && r.value.category == f.category && r.value.notes == f.notes && r.value.color == f.color
      && r.value.currency == f.currency && CycleName(r.value.cycle) == f.billingCycle
  {
    var problems := Problems(f);
    NoProblemsIffRulesHold(f);
    if problems == {} then
      Ok(Checked(f.name, f.price, f.renewalDate, f.paymentMethod, f.category, f.notes,
                 f.color, f.currency, ParseCycle(f.billingCycle).value))
    else Invalid(problems)
  }

  /** `parseFloat(input) || 0`: an unparsable input (`NaN`, here `None`) and
      zero both give 0; any other number is kept. */
  function CoercePrice(parsed: Option<real>): (r: real)
    ensures parsed.None? ==> r == 0.0
    ensures parsed.Some? ==> r == parsed.value
  {
    match parsed
    case None => 0.0
    case Some(x) => if x == 0.0 then 0.0 else x
  }

  /** A blank or garbled price never trips the price rule: it becomes a free
      subscription. A typed number trips it exactly when it is negative. */
  lemma CoercedPriceRule(f: FormValues, parsed: Option<real>)
    ensures PriceField in Problems(f.(price := CoercePrice(parsed)))
      <==> parsed.Some? && parsed.value < 0.0
  {
  }

  /** The values the form starts with. */
  const DefaultForm: FormValues :=
    FormValues("", 0.0, "", "", "", Some(""), "#E50914", "ريال", "monthly")

  /** Submitting the untouched form is refused for exactly the four empty
      required fields. */
  lemma DefaultFormRejected()
    ensures Validate(DefaultForm)
      == Invalid({NameField, RenewalDateField, PaymentMethodField, CategoryField})
  {
  }

  /** `onSubmit`: the parsed values spread into a draft that is active and
      uses the generic card icon. `dateOf` reads the date input's text. */
  function ToDraft(c: Checked, dateOf: string -> Instant): (d: Draft)
    ensures d.isActive && d.icon == "CreditCard"
    ensures d.name == c.name && d.price == c.price && d.renewalDate == dateOf(c.renewalDate)
    ensures d.paymentMethod == c.paymentMethod && d.category == c.category && d.notes == c.notes
    ensures d.color == c.color && d.currency == c.currency && d.billingCycle == c.cycle
  {
    Draft(c.name, c.price, dateOf(c.renewalDate), c.paymentMethod, c.category, c.notes,
          true, c.color, "CreditCard", c.currency, c.cycle)
  }

  /** Validation followed by `addSubscription`: a refused form leaves the
      store alone and reports the failing fields; an accepted one appends
      one active record carrying the entered values. */
  function Submit(st: State, f: FormValues, id: string, now: Instant, dateOf: string -> Instant): (r: Result<State>)
    ensures r.Ok? <==> Validate(f).Ok?
    ensures r.Invalid? ==> r.fields == Validate(f).fields
    ensures r.Ok? ==>
      && |r.value.subscriptions| == |st.subscriptions| + 1
      && r.value.subscriptions[..|st.subscriptions|] == st.subscriptions
      && Store.SameFilters(r.value, st)
    ensures r.Ok? ==> var x := r.value.subscriptions[|st.subscriptions|];
      && x.id == id && x.isActive && x.icon == "CreditCard" && x.createdAt == now && x.updatedAt == now
      && x.name == f.name && x.price == f.price && x.renewalDate == dateOf(f.renewalDate)
      && x.paymentMethod == f.paymentMethod && x.category == f.category && x.notes == f.notes
      && x.color == f.color && x.currency == f.currency && CycleName(x.billingCycle) == f.billingCycle
  {
    match Validate(f)
    case Invalid(fields) => Invalid(fields)
    case Ok(c) => Ok(Store.AddSubscription(st, ToDraft(c, dateOf), id, now))
  }

  /** An accepted submission adds the new record's monthly price to the
      monthly total. */
  lemma SubmitRaisesTotal(st: State, f: FormValues, id: string, now: Instant, dateOf: string -> Instant)
    requires Submit(st, f, id, now, dateOf).Ok?
    ensures var after := Submit(st, f, id, now, dateOf).value;
      Expenses.GetTotalMonthlyExpense(after)
        == Expenses.GetTotalMonthlyExpense(st) + MonthlyPrice(after.subscriptions[|st.subscriptions|])
  {
    var d := ToDraft(Validate(f).value, dateOf);
    Expenses.AddChangesTotal(st, d, id, now);
  }

  /** A blank price input with every other field filled in submits a free
      subscription. */
  lemma BlankPriceSubmitsFree(st: State, f: FormValues, id: string, now: Instant, dateOf: string -> Instant)
    requires f.name != [] && f.renewalDate != [] && f.paymentMethod != [] && f.category != []
    requires f.color != [] && f.currency != [] && f.billingCycle in {"monthly", "yearly"}
    ensures var r := Submit(st, f.(price := CoercePrice(None)), id, now, dateOf);
      r.Ok? && r.value.subscriptions[|st.subscriptions|].price == 0.0
  {
  }
}
