/**
 * Catalog commands given in chat: a first message only plans, and a confirmation with
 * the one-time token carries the plan out if the value it was approved on still stands.
 */
module AdminChat {
  import opened Sums
  import opened Ledger
  import opened LedgerInvariants

  type Token = nat   // uuid4().hex

  datatype Field = PriceField | StockField | ActiveField

  /** A value of one field, as it appears in snapshots and audit rows; prices in dong, with any number of decimals. */
  datatype Value = PriceOf(dong: real) | StockOf(units: int) | ActiveOf(active: bool)

  datatype Instruction = UpdatePrice(price: Option<real>) | UpdateStock(stock: Option<int>) | SetActive(active: bool)
  {
    function Target(): Field
    {
      match this
      case UpdatePrice(_) => PriceField
      case UpdateStock(_) => StockField
      case SetActive(_) => ActiveField
    }

    /** _validation_error finds nothing. */
    predicate Valid()
    {
      match this
      case UpdatePrice(price) => price.Some? && 0.0 < price.value
      case UpdateStock(stock) => stock.Some? && 0 <= stock.value
      case SetActive(_) => true
    }

    function Requested(): Value
      requires Valid()
    {
      match this
      case UpdatePrice(price) => PriceOf(price.value)
      case UpdateStock(stock) => StockOf(stock.value)
      case SetActive(active) => ActiveOf(active)
    }

    function Patch(): ProductPatch
      requires Valid()
    {
      var none := ProductPatch(None, None, None, None, None, None, None, None);
      match this
      case UpdatePrice(price) => none.(price := Some(Cents(price.value)))
      case UpdateStock(stock) => none.(stock := Some(stock.value))
      case SetActive(active) => none.(active := Some(active))
    }
  }

  /** What a NUMERIC(10,2) column keeps of a positive amount: the nearest hundredth, halves rounded up. */
  function Cents(dong: real): int
  {
    (dong * 100.0 + 0.5).Floor
  }

  function Dong(cents: int): real
  {
    cents as real / 100.0
  }

  function Live(product: Product, field: Field): Value
  {
    match field
    case PriceField => PriceOf(Dong(product.price))
    case StockField => StockOf(product.stock)
    case ActiveField => ActiveOf(product.active)
  }

  /** A value once it has been stored and read back. */
  function Stored(value: Value): Value
  {
    if value.PriceOf? then PriceOf(Dong(Cents(value.dong))) else value
  }

  datatype Plan = Plan(admin: Id, product: Id, instruction: Instruction, snapshot: Value)

  datatype AuditRow = AuditRow(admin: Id, product: Id, field: Field, before: Value, after: Value)

  /** `issued` remembers every token ever made, so that none is made twice. */
  datatype State = State(db: DB, pending: map<Token, Plan>, issued: set<Token>, audit: seq<AuditRow>)

  datatype Reply = Expired | ProductGone | Invalid | Stale | Failed | Executed

  // ---------------------------------------------------------------- planning

  /** Planning needs a resolved product and a valid value; the token is new. */
  predicate CanPlan(s: State, product: Id, instruction: Instruction, token: Token)
  {
    product in s.db.products && instruction.Valid() && token !in s.issued
  }

  function PlanStep(s: State, admin: User, product: Id, instruction: Instruction, token: Token): State
  {
    if !CanPlan(s, product, instruction, token) then s
    else
      var snapshot := Live(s.db.products[product], instruction.Target());
      s.(pending := s.pending[token := Plan(admin.id, product, instruction, snapshot)],
         issued := s.issued + {token})
  }

  // ---------------------------------------------------------------- confirming

  function ConfirmReply(s: State, token: Token, admin: User): Reply
  {
    if token !in s.pending || s.pending[token].admin != admin.id then Expired
    else
      var plan := s.pending[token];
      if plan.product !in s.db.products then ProductGone
      else if !plan.instruction.Valid() then Invalid
      else if Live(s.db.products[plan.product], plan.instruction.Target()) != plan.snapshot then Stale
      else if EditProductError(s.db, plan.product, plan.instruction.Patch(), admin).Some? then Failed
      else Executed
  }

  /** The token is gone after any confirmation; tables change only when the plan is executed. */
  function ConfirmStep(s: State, token: Token, admin: User): State
  {
    var claimed := s.(pending := map t | t in s.pending && t != token :: s.pending[t]);
    if ConfirmReply(s, token, admin) != Executed then claimed
    else
      var plan := s.pending[token];
      var field := plan.instruction.Target();
      claimed.(db := EditProduct(s.db, plan.product, plan.instruction.Patch(), admin),
               audit := s.audit + [AuditRow(admin.id, plan.product, field,
                                            Live(s.db.products[plan.product], field), plan.instruction.Requested())])
  }

  datatype Event =
    | Planning(admin: User, product: Id, instruction: Instruction, made: Token)
    | Confirming(token: Token, confirmer: User)
    | Expiring(token: Token)
    | Shop(request: Request)   // direct edits, orders, everything else

  function Next(s: State, e: Event): State
  {
    match e
    case Planning(admin, product, instruction, token) => PlanStep(s, admin, product, instruction, token)
    case Confirming(token, admin) => ConfirmStep(s, token, admin)
    case Expiring(token) => s.(pending := map t | t in s.pending && t != token :: s.pending[t])
    case Shop(request) => s.(db := Step(s.db, request))
  }

  function After(s: State, events: seq<Event>): State
  {
    if events == [] then s else Next(After(s, events[..|events| - 1]), events[|events| - 1])
  }

  predicate Executes(s: State, e: Event, token: Token)
  {
    e.Confirming? && e.token == token && ConfirmReply(s, token, e.confirmer) == Executed
  }

  // ---------------------------------------------------------------- one confirmation

  /** The approved field of the planned product goes from the approved value to what the column keeps of the requested one. */
  predicate OneFieldMoved(before: DB, after: DB, plan: Plan)
  {
    && plan.instruction.Valid()
    && plan.product in before.products && after.products.Keys == before.products.Keys
    && var field, was, is_ := plan.instruction.Target(), before.products[plan.product], after.products[plan.product];
    && Live(was, field) == plan.snapshot
    && Live(is_, field) == Stored(plan.instruction.Requested())
    && (forall other :: other != field ==> Live(is_, other) == Live(was, other))
    && is_ == was.(price := is_.price, stock := is_.stock, active := is_.active)
    && (forall p :: p in before.products && p != plan.product ==> after.products[p] == before.products[p])
    && after.orders == before.orders && after.coupons == before.coupons && after.redemptions == before.redemptions
  }

  function LogOf(plan: Plan): AuditRow
    requires plan.instruction.Valid()
  {
    AuditRow(plan.admin, plan.product, plan.instruction.Target(), plan.snapshot, plan.instruction.Requested())
  }

  /** An execution moves exactly the approved field and logs it, for the administrator who planned it. */
  lemma ExecutionEffect(s: State, token: Token, admin: User)
    requires ConfirmReply(s, token, admin) == Executed
    ensures
      var plan, after := s.pending[token], ConfirmStep(s, token, admin);
      && plan.admin == admin.id
      && OneFieldMoved(s.db, after.db, plan)
      && after.audit == s.audit + [LogOf(plan)]
  {
    var plan := s.pending[token];
    forall other | other != plan.instruction.Target()
      ensures Live(ConfirmStep(s, token, admin).db.products[plan.product], other) == Live(s.db.products[plan.product], other)
    {
    }
  }

  // ---------------------------------------------------------------- what the instructions mean

  /** Every positive price, every stock that is not negative, and both states can be planned. */
  predicate Sensible(instruction: Instruction)
  {
    match instruction
    case UpdatePrice(price) => price.Some? && price.value > 0.0
    case UpdateStock(stock) => stock.Some? && stock.value >= 0
    case SetActive(_) => true
  }

  /** The row with the instruction carried out: the price to the nearest hundredth, the stock and the state as said. */
  predicate CarriedOut(instruction: Instruction, before: Product, after: Product)
  {
    match instruction
    case UpdatePrice(price) =>
      && after == before.(price := after.price)
      && price.Some? && -0.5 <= after.price as real - 100.0 * price.value <= 0.5
    case UpdateStock(stock) => stock.Some? && after == before.(stock := stock.value)
    case SetActive(active) => after == before.(active := active)
  }

  /** What the log says of it: the field, its value before, and the value asked for. */
  predicate LoggedAsSaid(instruction: Instruction, before: Product, row: AuditRow)
  {
    match instruction
    case UpdatePrice(price) =>
      && row.field == PriceField && row.before == PriceOf(before.price as real / 100.0)
      && price.Some? && row.after == PriceOf(price.value)
    case UpdateStock(stock) =>
      row.field == StockField && row.before == StockOf(before.stock) && stock.Some? && row.after == StockOf(stock.value)
    case SetActive(active) =>
      row.field == ActiveField && row.before == ActiveOf(before.active) && row.after == ActiveOf(active)
  }

  /** The field that the instruction is about still has the value that was approved. */
  predicate StillAsApproved(instruction: Instruction, row: Product, approved: Value)
  {
    match instruction
    case UpdatePrice(_) => approved == PriceOf(row.price as real / 100.0)
    case UpdateStock(_) => approved == StockOf(row.stock)
    case SetActive(_) => approved == ActiveOf(row.active)
  }

  lemma PlannableIff(s: State, product: Id, instruction: Instruction, token: Token)
    ensures CanPlan(s, product, instruction, token)
       <==> product in s.db.products && Sensible(instruction) && token !in s.issued
  {
  }

  lemma NearestHundredth(dong: real)
    ensures -0.5 <= Cents(dong) as real - 100.0 * dong <= 0.5
  {
  }

  /** A confirmed plan is carried out as it was said, and logged as it was said. */
  lemma ExecutedAsSaid(s: State, token: Token, admin: User)
    requires ConfirmReply(s, token, admin) == Executed
    ensures
      var plan, after := s.pending[token], ConfirmStep(s, token, admin);
      && plan.product in s.db.products && plan.product in after.db.products
      && CarriedOut(plan.instruction, s.db.products[plan.product], after.db.products[plan.product])
      && |after.audit| == |s.audit| + 1 && after.audit[..|s.audit|] == s.audit
      && after.audit[|s.audit|].admin == admin.id && after.audit[|s.audit|].product == plan.product
      && LoggedAsSaid(plan.instruction, s.db.products[plan.product], after.audit[|s.audit|])
  {
    if s.pending[token].instruction.UpdatePrice? {
      NearestHundredth(s.pending[token].instruction.price.value);
    }
  }

  /**
   * A confirmation is executed exactly for the administrator who planned it, while the
   * token is pending, the product exists and its field is as approved; a new price must
   * also be at least half a hundredth and, to the nearest hundredth, above the sale price.
   */
  lemma ExecutesIff(s: State, token: Token, admin: User)
    requires Invariant(s.db)
    ensures ConfirmReply(s, token, admin) == Executed <==>
              && token in s.pending && s.pending[token].admin == admin.id && admin.role == Admin
              && s.pending[token].product in s.db.products
              && var plan := s.pending[token];
                 var row := s.db.products[plan.product];
                 && Sensible(plan.instruction) && StillAsApproved(plan.instruction, row, plan.snapshot)
                 && (plan.instruction.UpdatePrice? ==>
                       && 1 <= (100.0 * plan.instruction.price.value + 0.5).Floor
                       && (row.salePrice.Some? ==>
                             row.salePrice.value < (100.0 * plan.instruction.price.value + 0.5).Floor))
  {
    if token in s.pending && s.pending[token].product in s.db.products {
      assert ValidProduct(s.db.products[s.pending[token].product]);
    }
  }

  /** Each reply to a confirmation that is not executed is true. */
  lemma RefusalIsReal(s: State, token: Token, admin: User)
    requires Invariant(s.db)
    ensures
      match ConfirmReply(s, token, admin)
      case Expired => token !in s.pending || s.pending[token].admin != admin.id
      case ProductGone => token in s.pending && s.pending[token].product !in s.db.products
      case Invalid => token in s.pending && !Sensible(s.pending[token].instruction)
      case Stale =>
        && token in s.pending && s.pending[token].product in s.db.products
        && !StillAsApproved(s.pending[token].instruction, s.db.products[s.pending[token].product], s.pending[token].snapshot)
      case Failed => token in s.pending && (admin.role != Admin || s.pending[token].instruction.UpdatePrice?)
      case Executed => true
  {
    if token in s.pending && s.pending[token].product in s.db.products {
      assert ValidProduct(s.db.products[s.pending[token].product]);
    }
  }

  /** A refused confirmation costs the token and nothing else. */
  lemma RefusalEffect(s: State, token: Token, admin: User)
    requires ConfirmReply(s, token, admin) != Executed
    ensures
      var after := ConfirmStep(s, token, admin);
      && after.db == s.db && after.audit == s.audit && token !in after.pending
      && forall t :: t in s.pending && t != token ==> t in after.pending && after.pending[t] == s.pending[t]
  {
  }

  /** As long as the live value differs from the approved one, nobody can execute the plan. */
  lemma MovedValueRefused(s: State, token: Token, admin: User)
    requires token in s.pending && s.pending[token].product in s.db.products
    requires Live(s.db.products[s.pending[token].product], s.pending[token].instruction.Target()) != s.pending[token].snapshot
    ensures ConfirmReply(s, token, admin) != Executed
  {
  }

  /** Of two plans approved on the same value, the second is refused once the first has changed it. */
  lemma SecondPlanStale(s: State, first: Token, second: Token, admin: User, other: User)
    requires first != second && second in s.pending
    requires ConfirmReply(s, first, admin) == Executed
    requires s.pending[second].product == s.pending[first].product
    requires s.pending[second].instruction.Target() == s.pending[first].instruction.Target()
    requires Stored(s.pending[first].instruction.Requested()) != s.pending[second].snapshot
    ensures ConfirmReply(ConfirmStep(s, first, admin), second, other) != Executed
  {
    ExecutionEffect(s, first, admin);
    MovedValueRefused(ConfirmStep(s, first, admin), second, other);
  }

  /** An executed price is live to the last digit exactly when it is a whole number of hundredths. */
  lemma StoredExactlyIff(dong: real)
    ensures Stored(PriceOf(dong)) == PriceOf(dong) <==> (dong * 100.0).Floor as real == dong * 100.0
  {
    var c := Cents(dong);
    if (dong * 100.0).Floor as real == dong * 100.0 {
      assert c == (dong * 100.0).Floor;
    }
  }

  /** "1,234567891 trieu": a price with a third decimal is stored, and then live, without it. */
  lemma ThirdDecimalIsLost()
    ensures Stored(PriceOf(1234567.891)) == PriceOf(1234567.89) != PriceOf(1234567.891)
  {
    assert Cents(1234567.891) == 123456789;
  }

  // ---------------------------------------------------------------- runs

  ghost predicate TokensOk(s: State)
  {
    forall t :: t in s.pending ==> t in s.issued
  }

  lemma NextTokens(s: State, e: Event, token: Token)
    requires TokensOk(s)
    ensures TokensOk(Next(s, e))
    ensures s.issued <= Next(s, e).issued
    ensures token in s.issued && token !in s.pending ==> token !in Next(s, e).pending
    ensures Executes(s, e, token) ==> token in s.pending && token !in Next(s, e).pending
    ensures token in s.pending && token in Next(s, e).pending ==> Next(s, e).pending[token] == s.pending[token]
  {
  }

  function Executions(s: State, events: seq<Event>, token: Token): nat
  {
    if events == [] then 0
    else
      var before := events[..|events| - 1];
      Executions(s, before, token) + if Executes(After(s, before), events[|events| - 1], token) then 1 else 0
  }

  /** Over any run a token changes the catalog at most once, and never again once it was claimed or expired. */
  lemma {:induction false} TokenExecutesAtMostOnce(s: State, events: seq<Event>, token: Token)
    requires TokensOk(s)
    ensures Executions(s, events, token) <= 1
    ensures token in s.issued && token !in s.pending ==> Executions(s, events, token) == 0
    ensures TokensOk(After(s, events)) && s.issued <= After(s, events).issued
    ensures Executions(s, events, token) == 1 || (token in s.issued && token !in s.pending) ==>
              token in After(s, events).issued && token !in After(s, events).pending
  {
    hide Next, Executes, TokensOk;
    if events != [] {
      var before := events[..|events| - 1];
      TokenExecutesAtMostOnce(s, before, token);
      NextTokens(After(s, before), events[|events| - 1], token);
      PendingIssued(After(s, before), token);
    }
  }

  lemma PendingIssued(s: State, token: Token)
    requires TokensOk(s)
    ensures token in s.pending ==> token in s.issued
  {
  }

  /** The events in which a plan was made and approved on the value live at that time. */
  ghost predicate PlannedAt(s: State, events: seq<Event>, j: nat, token: Token, plan: Plan)
  {
    && j < |events| && events[j].Planning? && events[j].made == token
    && events[j].admin.id == plan.admin && events[j].product == plan.product && events[j].instruction == plan.instruction
    && plan.product in After(s, events[..j]).db.products
    && Live(After(s, events[..j]).db.products[plan.product], plan.instruction.Target()) == plan.snapshot
  }

  /** Every pending plan stems from a planning message of the run. */
  lemma {:induction false} PendingWasPlanned(s: State, events: seq<Event>, token: Token)
    requires s.pending == map[] && token in After(s, events).pending
    ensures exists j :: 0 <= j < |events| && PlannedAt(s, events, j, token, After(s, events).pending[token])
  {
    var n := |events| - 1;
    var before, e := events[..n], events[n];
    var now := After(s, before);
    if token in now.pending && Next(now, e).pending[token] == now.pending[token] {
      PendingWasPlanned(s, before, token);
      var j :| 0 <= j < |before| && PlannedAt(s, before, j, token, now.pending[token]);
      assert before[..j] == events[..j];
      assert PlannedAt(s, events, j, token, now.pending[token]);
    } else {
      assert events[..n] == before;
      assert PlannedAt(s, events, n, token, Next(now, e).pending[token]);
    }
  }

  /**
   * Whoever executes a plan is the administrator who made it, and the value it replaces
   * is the value live when it was made.
   */
  lemma ExecutedAsApproved(s: State, events: seq<Event>, token: Token, admin: User)
    requires s.pending == map[] && ConfirmReply(After(s, events), token, admin) == Executed
    ensures exists j ::
              && 0 <= j < |events| && PlannedAt(s, events, j, token, After(s, events).pending[token])
              && events[j].admin.id == admin.id
              && Live(After(s, events[..j]).db.products[After(s, events).pending[token].product],
                      After(s, events).pending[token].instruction.Target())
                 == Live(After(s, events).db.products[After(s, events).pending[token].product],
                         After(s, events).pending[token].instruction.Target())
  {
    PendingWasPlanned(s, events, token);
    var j :| 0 <= j < |events| && PlannedAt(s, events, j, token, After(s, events).pending[token]);
  }

  // ---------------------------------------------------------------- the audit log

  /** Storing the logged values of one field of one product, in order, on top of a first value. */
  function Replay(first: Value, audit: seq<AuditRow>, product: Id, field: Field): Value
  {
    if audit == [] then first
    else
      var last := audit[|audit| - 1];
      if last.product == product && last.field == field then Stored(last.after)
      else Replay(first, audit[..|audit| - 1], product, field)
  }

  /** Each audit row continues where the rows before it left the field. */
  ghost predicate Chained(first: Value, audit: seq<AuditRow>, product: Id, field: Field)
  {
    forall i :: 0 <= i < |audit| && audit[i].product == product && audit[i].field == field ==>
      audit[i].before == Replay(first, audit[..i], product, field)
  }

  /** No request besides confirmations changes the field of the product. */
  ghost predicate OnlyChatWrites(s: State, events: seq<Event>, product: Id, field: Field)
  {
    forall i :: 0 <= i < |events| && events[i].Shop? ==>
      var now := After(s, events[..i]).db;
      product in now.products ==>
        && product in Step(now, events[i].request).products
        && Live(Step(now, events[i].request).products[product], field) == Live(now.products[product], field)
  }

  lemma ReplaySnoc(first: Value, audit: seq<AuditRow>, row: AuditRow, product: Id, field: Field)
    ensures Replay(first, audit + [row], product, field)
         == if row.product == product && row.field == field then Stored(row.after) else Replay(first, audit, product, field)
  {
    assert (audit + [row])[..|audit|] == audit;
  }

  lemma ChainedSnoc(first: Value, audit: seq<AuditRow>, row: AuditRow, product: Id, field: Field)
    requires Chained(first, audit, product, field)
    requires row.product == product && row.field == field ==> row.before == Replay(first, audit, product, field)
    ensures Chained(first, audit + [row], product, field)
  {
    var all := audit + [row];
    forall i | 0 <= i < |all|
      ensures all[..i] == if i < |audit| then audit[..i] else audit
    {
    }
  }

  /** Replaying the audit log of a field gives its live value, and every row starts from the value the row before it left. */
  lemma {:induction false} AuditReplaysToLive(s: State, events: seq<Event>, product: Id, field: Field)
    requires s.audit == [] && product in s.db.products
    requires OnlyChatWrites(s, events, product, field)
    ensures product in After(s, events).db.products
    ensures
      var first := Live(s.db.products[product], field);
      && Live(After(s, events).db.products[product], field) == Replay(first, After(s, events).audit, product, field)
      && Chained(first, After(s, events).audit, product, field)
  {
    if events != [] {
      var n := |events| - 1;
      var before, e := events[..n], events[n];
      forall i | 0 <= i < n
        ensures before[..i] == events[..i] && before[i] == events[i]
      {
      }
      AuditReplaysToLive(s, before, product, field);
      AuditStep(Live(s.db.products[product], field), After(s, before), e, product, field);
    }
  }

  lemma AuditStep(first: Value, s: State, e: Event, product: Id, field: Field)
    requires product in s.db.products
    requires Live(s.db.products[product], field) == Replay(first, s.audit, product, field)
    requires Chained(first, s.audit, product, field)
    requires e.Shop? ==>
               && product in Step(s.db, e.request).products
               && Live(Step(s.db, e.request).products[product], field) == Live(s.db.products[product], field)
    ensures product in Next(s, e).db.products
    ensures Live(Next(s, e).db.products[product], field) == Replay(first, Next(s, e).audit, product, field)
    ensures Chained(first, Next(s, e).audit, product, field)
  {
    hide Step, Live, Stored, Replay, Chained;
    if e.Confirming? && ConfirmReply(s, e.token, e.confirmer) == Executed {
      ExecutionEffect(s, e.token, e.confirmer);
      var row := Next(s, e).audit[|s.audit|];
      assert Next(s, e).audit == s.audit + [row];
      ReplaySnoc(first, s.audit, row, product, field);
      ChainedSnoc(first, s.audit, row, product, field);
    }
  }

  /** Chat commands are part of the ledger's life: they keep its invariant. */
  lemma NextKeepsLedger(s: State, e: Event)
    requires Invariant(s.db)
    ensures Invariant(Next(s, e).db)
  {
    hide Invariant;
    match e
    case Shop(request) => StepKeeps(s.db, request);
    case Confirming(token, admin) =>
      if ConfirmReply(s, token, admin) == Executed {
        var plan := s.pending[token];
        StepKeeps(s.db, ProductEdit(plan.product, plan.instruction.Patch(), admin));
      }
    case _ =>
  }

  // ---------------------------------------------------------------- the service

  class Assistant {
    var db: DB
    var pending: map<Token, Plan>
    ghost var issued: set<Token>
    var audit: seq<AuditRow>

    ghost function Now(): State
      reads this
    {
      State(db, pending, issued, audit)
    }

    constructor (db: DB)
      requires Invariant(db)
      ensures Now() == State(db, map[], {}, [])
    {
      this.db, pending, issued, audit := db, map[], {}, [];
    }

    /** _plan, once the product is resolved: nothing but the token store changes. */
    method PlanCommand(admin: User, product: Id, instruction: Instruction, token: Token) returns (planned: bool)
      requires product in db.products && token !in issued
      modifies this`pending, this`issued
      ensures Now() == PlanStep(old(Now()), admin, product, instruction, token)
      ensures planned <==> Sensible(instruction)
      ensures planned ==>
                && token in pending && pending[token].admin == admin.id && pending[token].product == product
                && pending[token].instruction == instruction
                && StillAsApproved(instruction, db.products[product], pending[token].snapshot)
      // Only the planner can confirm, and as long as nothing moves the plan is neither expired nor stale.
      ensures planned ==> ConfirmReply(Now(), token, admin) in {Executed, Failed}
      ensures planned ==> forall other: User :: other.id != admin.id ==> ConfirmReply(Now(), token, other) == Expired
      // What was planned before stands.
      ensures forall t :: t in old(pending) && t != token ==> t in pending && pending[t] == old(pending[t])
    {
      if !instruction.Valid() {
        return false;
      }
      var snapshot := Live(db.products[product], instruction.Target());
      pending := pending[token := Plan(admin.id, product, instruction, snapshot)];
      issued := issued + {token};
      planned := true;
    }

    /** _execute_pending */
    method ExecutePending(token: Token, admin: User) returns (reply: Reply)
      modifies this`db, this`pending, this`audit
      ensures Now() == ConfirmStep(old(Now()), token, admin)
      ensures reply == ConfirmReply(old(Now()), token, admin)
      // Whatever the reply, the token is used up for everybody and no other plan is touched.
      ensures forall anyone: User :: ConfirmReply(Now(), token, anyone) == Expired
      ensures forall t :: t in old(pending) && t != token ==> t in pending && pending[t] == old(pending[t])
      ensures reply != Executed ==> db == old(db) && audit == old(audit)
      // An execution turns the approved value of one field into the requested one and logs just that.
      ensures reply == Executed ==>
                && token in old(pending) && old(pending)[token].admin == admin.id
                && OneFieldMoved(old(db), db, old(pending)[token])
                && audit == old(audit) + [LogOf(old(pending)[token])]
      // It is carried out, and logged, as it was said.
      ensures reply == Executed ==>
                var plan := old(pending)[token];
                && CarriedOut(plan.instruction, old(db).products[plan.product], db.products[plan.product])
                && LoggedAsSaid(plan.instruction, old(db).products[plan.product], audit[|old(audit)|])
    {
      if ConfirmReply(Now(), token, admin) == Executed {
        ExecutedAsSaid(Now(), token, admin);
        ExecutionEffect(Now(), token, admin);
      } else {
        RefusalEffect(Now(), token, admin);
      }
      if token !in pending {
        assert (map t | t in pending && t != token :: pending[t]) == pending;
        return Expired;
      }
      var plan := pending[token];
      pending := map t | t in pending && t != token :: pending[t];
      if plan.admin != admin.id {
        return Expired;
      }
      if plan.product !in db.products {
        return ProductGone;
      }
      if !plan.instruction.Valid() {
        return Invalid;
      }
      var field := plan.instruction.Target();
      var before, after := Live(db.products[plan.product], field), plan.instruction.Requested();
      if before != plan.snapshot {
        return Stale;
      }
      var patch := plan.instruction.Patch();
      if EditProductError(db, plan.product, patch, admin).Some? {
        return Failed;
      }
      db := EditProduct(db, plan.product, patch, admin);
      audit := audit + [AuditRow(admin.id, plan.product, field, before, after)];
      reply := Executed;
    }
  }
}
