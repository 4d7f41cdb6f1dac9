/** The shapes passed between the engine's stages (backend/oneguard/engine/types.py).

    Money is integer cents (CHF), time is integer seconds, and the number in a rule is carried
    in hundredths (CHF 120.50, size 43.5 and 14 days are 12050, 4350 and 1400). */
module Types {
  import opened Seqs

  datatype Outcome = Approve | Decline | StepUp
  datatype RuleOutcome = Pass | Fail | Unknown
  /** `uncertain_outcome`: what became of a step-up. */
  datatype Answer = Unasked | Waiting | Expired | Approved | Declined
  datatype Resolver = Nobody | Customer | Timeout
  datatype Trust = Normal | Elevated | Frozen
  datatype Relation = RequoteOf | DuplicateOf | RetryOf | SplitOf
  datatype Operator = Lt | Le | Eq | Ne | Gt | Ge | In | NotIn
  datatype Currency = CHF | EUR | GBP | USD
  datatype Scope = Unscoped | PerPurchase | PerPeriod
  datatype Setting = AskMe | DeclineIt | ApproveIt
  datatype PolicyStatus = Active | Superseded | Revoked | ExpiredPolicy | NoPolicy

  datatype Field =
    | BillingAmount | UnitPrice | LineQuantity | CartQuantity | ItemCategory | ContainsAlcohol
    | SizeEu | SizeLetter | ReturnWindow | Returnable | Cancellable | MerchantCategory
    | MerchantCountry | MerchantCity | KnownShop | FamiliarOnCard | CartRecurring | DeliveryBy
    | Weekday | LocalHour | PurchasesInPeriod | Unverifiable | OtherField(name: string)

  datatype Value = Num(hundredths: int) | Text(text: string) | Names(names: seq<string>)

  const LAST_PRICE_AT_SHOP := Text("last_price_at_shop")

  datatype Rule = Rule(
    id: string, field: Field, op: Operator, value: Value, currency: Option<Currency>,
    scope: Scope, periodDays: Option<nat>, text: string, asksOnFail: bool)

  /** A requested item: the customer's words, and the stemmed words a cart line must have. */
  datatype Wanted = Wanted(text: string, words: set<string>)

  /** An empty category list is a flag the customer did not state. */
  datatype Policy = Policy(
    mandateId: string, status: PolicyStatus, rules: seq<Rule>, setting: Setting,
    requestedItem: Option<Wanted>, allowed: seq<string>, blocked: seq<string>,
    requiresKnownShop: bool, nothingExtra: bool, shopType: Option<string>, singleItem: bool,
    cardId: Option<string>)

  datatype Atom = NumAtom(hundredths: int) | TextAtom(text: string) | BoolAtom(b: bool)
  /** A fact that may be missing: unknown is never a pass. */
  datatype FactValue = Known(value: Atom) | NotKnown

  /** The return terms a line's text states; two different ones contradict each other. */
  datatype LineWindow = Stated(days: nat) | NotStated | Contradictory

  datatype Item = Item(
    itemId: string, words: set<string>, category: string, quantity: nat, unitPrice: int,
    sizeEu: FactValue, sizeLetter: FactValue, window: LineWindow, recurring: Option<bool>, alcohol: FactValue,
    minPrice: Option<int>, maxPrice: Option<int>)

  datatype OrderTerm = TermTrue | TermFalse | TermUnknown | TermNotApplicable
  datatype RelatedStatus = NoStatus | RelPending | RelApproved | RelDeclined | RelCancelled

  datatype Facts = Facts(
    id: string, ts: int, weekday: string, hour: nat, amount: int, items: seq<Item>,
    merchantId: string, merchantName: string, merchantCategory: string,
    merchantCountry: string, merchantCity: Option<string>, merchantKnown: bool,
    deviceId: string, recentAttempts: nat, returnable: OrderTerm, cancellable: OrderTerm,
    deliveryBy: Option<string>, relatedId: string, relatedStatus: RelatedStatus,
    authorityActive: bool, cardActive: bool,
    instructionsInText: bool)

  datatype Prior = Prior(
    id: string, ts: int, outcome: Outcome, final: bool, approved: bool, merchantId: string,
    itemIds: seq<string>, amount: int, reserved: bool)

  datatype Fulfilment = Fulfilment(id: string, mandateId: string, ts: int, amount: int, item: string)

  datatype LedgerView = LedgerView(
    periodSpent: int, periodReserved: int, periodWindowStart: int, periodCount: Option<nat>,
    periodReservedCount: nat, periodLastApprovedAt: Option<int>, priors: seq<Prior>,
    knownMerchants: set<string>, knownOnCard: set<string>, knownNames: seq<(string, string)>,
    approvalsOnCard: map<string, int>, approvalsOtherCards: map<string, int>,
    knownDevices: set<string>, knownCountries: set<string>, maxApproved: Option<int>,
    lastPrice: map<string, int>, flagged: set<string>, frozen: bool,
    confirmedKeys: set<string>, fulfilments: Option<seq<Fulfilment>>)

  /** Which of the result's standard details it carries (a marker the later stages read). */
  datatype Mark = Plain | ReservationOnly | Confirmed | NoHistory

  /** `explains` is whether the result carries a counterfactual. */
  datatype RuleResult = RuleResult(ruleId: string, outcome: RuleOutcome, mark: Mark, explains: bool)

  datatype Strength = Strong | Weak | Protection
  datatype Effect = AskEffect | DeclineEffect | InfoEffect

  datatype Signal = Signal(
    id: string, triggered: bool, strength: Strength, effect: Effect,
    related: Option<(string, Relation)>)

  datatype EngineDecision = EngineDecision(
    outcome: Outcome, step: nat, decidingIds: seq<string>,
    related: Option<(string, Relation)>, trust: Trust)

  /** The step-1 results have these ids (types.py:52). */
  const STEP1_IDS: seq<string> := ["policy_status", "authority_status", "card_status"]

  const DAY := 86400
}
