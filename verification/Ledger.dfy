/** Prepaid AI credits: reservations, settlements, restarts, and idempotent top-ups. */
module Ledger {
  import opened Basics
  import MapSums

  const OUTPUT_LIMIT := 4096

  datatype Status = Pending | Settled | Interrupted
  datatype Usage = Usage(user: string, subscription: bool, reserved: nat, input: nat, output: nat, status: Status)
  datatype Grant = Grant(user: string, amount: nat)
  datatype Invoice = Invoice(invoice: string, user: string, amount: nat)

  datatype Books = Books(balance: map<string, int>, usage: map<string, Usage>,
                         credits: map<string, Grant>, billing: map<string, Invoice>)

  const NEW := Books(map[], map[], map[], map[])

  /** Tokens that a settled call costs. */
  function Cost(u: Usage): nat {
    Least(u.input + u.output, u.reserved)
  }

  function Balance(b: Books, user: string): int {
    if user in b.balance then b.balance[user] else 0
  }

  function TopUp(b: Books, user: string, amount: nat): map<string, int> {
    b.balance[user := Balance(b, user) + amount]
  }

  // ---- operations, one transaction each ----

  datatype Op =
    | Reserve(id: string, user: string, subscription: bool, inputBytes: nat)
    | Settle(id: string, input: nat, output: nat)
    | Restart
    | Credit(id: string, user: string, amount: nat)
    | Paid(event: string, invoice: string, user: string, amount: nat)

  predicate CanReserve(b: Books, id: string, user: string, subscription: bool, reserve: nat) {
    && id !in b.usage
    && (subscription ==> user in b.balance && reserve <= b.balance[user])
  }

  predicate KnownInvoice(b: Books, event: string, invoice: string) {
    event in b.billing || exists e :: e in b.billing && b.billing[e].invoice == invoice
  }

  ghost function Refunds(b: Books): map<string, int> {
    map user | user in b.balance :: b.balance[user] + MapSums.Sum(Holds(b.usage, user))
  }

  function Interrupt(usage: map<string, Usage>): map<string, Usage> {
    map id | id in usage :: if usage[id].status == Pending then usage[id].(status := Interrupted) else usage[id]
  }

  function ReserveIn(b: Books, id: string, user: string, subscription: bool, inputBytes: nat): Books {
    var reserve := inputBytes + OUTPUT_LIMIT;
    if !CanReserve(b, id, user, subscription, reserve) then b
    else b.(balance := if subscription then b.balance[user := b.balance[user] - reserve] else b.balance,
            usage := b.usage[id := Usage(user, subscription, reserve, 0, 0, Pending)])
  }

  function SettleIn(b: Books, id: string, input: nat, output: nat): Books {
    if id !in b.usage || b.usage[id].status != Pending then b
    else
      var u := b.usage[id].(input := input, output := output, status := Settled);
      b.(balance := if u.subscription && u.user in b.balance
                    then b.balance[u.user := b.balance[u.user] + u.reserved - Cost(u)] else b.balance,
         usage := b.usage[id := u])
  }

  ghost function RestartIn(b: Books): Books {
    b.(balance := Refunds(b), usage := Interrupt(b.usage))
  }

  function CreditIn(b: Books, id: string, user: string, amount: nat): Books {
    if id in b.credits then b
    else b.(balance := TopUp(b, user, amount), credits := b.credits[id := Grant(user, amount)])
  }

  function PaidIn(b: Books, event: string, invoice: string, user: string, amount: nat): Books {
    if KnownInvoice(b, event, invoice) then b
    else b.(balance := TopUp(b, user, amount), billing := b.billing[event := Invoice(invoice, user, amount)])
  }

  ghost function Apply(b: Books, op: Op): Books {
    match op
    case Reserve(id, user, subscription, inputBytes) => ReserveIn(b, id, user, subscription, inputBytes)
    case Settle(id, input, output) => SettleIn(b, id, input, output)
    case Restart => RestartIn(b)
    case Credit(id, user, amount) => CreditIn(b, id, user, amount)
    case Paid(event, invoice, user, amount) => PaidIn(b, event, invoice, user, amount)
  }

  // ---- what a user's rows add up to ----

  /** Reservations still held against a user's subscription. */
  ghost function Holds(usage: map<string, Usage>, user: string): map<string, int> {
    map id | id in usage :: if Held(usage[id], user) then usage[id].reserved else 0
  }

  predicate Held(u: Usage, user: string) {
    u.user == user && u.subscription && u.status == Pending
  }

  /** Cost of a user's settled subscription calls. */
  ghost function Costs(usage: map<string, Usage>, user: string): map<string, int> {
    map id | id in usage :: if Charged(usage[id], user) then Cost(usage[id]) else 0
  }

  predicate Charged(u: Usage, user: string) {
    u.user == user && u.subscription && u.status == Settled
  }

  ghost function Granted(credits: map<string, Grant>, user: string): map<string, int> {
    map id | id in credits :: if credits[id].user == user then credits[id].amount else 0
  }

  ghost function Invoiced(billing: map<string, Invoice>, user: string): map<string, int> {
    map e | e in billing :: if billing[e].user == user then billing[e].amount else 0
  }

  ghost function Spent(b: Books, user: string): int {
    Balance(b, user) + MapSums.Sum(Holds(b.usage, user)) + MapSums.Sum(Costs(b.usage, user))
  }

  ghost function Received(b: Books, user: string): int {
    MapSums.Sum(Granted(b.credits, user)) + MapSums.Sum(Invoiced(b.billing, user))
  }

  /** No balance is negative, every subscriber has a balance row, and no invoice was
      recorded twice. */
  ghost predicate Sound(b: Books) {
    && (forall user :: user in b.balance ==> b.balance[user] >= 0)
    && (forall id :: id in b.usage && b.usage[id].subscription ==> b.usage[id].user in b.balance)
    && (forall d, e :: d in b.billing && e in b.billing && b.billing[d].invoice == b.billing[e].invoice ==> d == e)
  }

  lemma PutUsage(usage: map<string, Usage>, id: string, u: Usage, user: string)
    ensures Holds(usage[id := u], user) == Holds(usage, user)[id := if Held(u, user) then u.reserved else 0]
    ensures Costs(usage[id := u], user)
         == Costs(usage, user)[id := if Charged(u, user) then Cost(u) else 0]
  {
    hide Cost, Held;
  }

  lemma UsageSums(usage: map<string, Usage>, id: string, u: Usage, user: string)
    ensures MapSums.Sum(Holds(usage[id := u], user)) == MapSums.Sum(Holds(usage, user))
      + (if Held(u, user) then u.reserved else 0)
      - (if id in usage && Held(usage[id], user) then usage[id].reserved else 0)
    ensures MapSums.Sum(Costs(usage[id := u], user)) == MapSums.Sum(Costs(usage, user))
      + (if Charged(u, user) then Cost(u) else 0)
      - (if id in usage then Costs(usage, user)[id] else 0)
  {
    hide Cost, Held;
    PutUsage(usage, id, u, user);
    MapSums.SumPut(Holds(usage, user), id, if Held(u, user) then u.reserved else 0);
    MapSums.SumPut(Costs(usage, user), id, if Charged(u, user) then Cost(u) else 0);
  }

  lemma InterruptSums(usage: map<string, Usage>, user: string)
    ensures MapSums.Sum(Holds(Interrupt(usage), user)) == 0
    ensures MapSums.Sum(Costs(Interrupt(usage), user)) == MapSums.Sum(Costs(usage, user))
  {
    MapSums.SumOfZeros(Holds(Interrupt(usage), user));
    InterruptedCosts(usage, user);
  }

  lemma InterruptedCosts(usage: map<string, Usage>, user: string)
    ensures Costs(Interrupt(usage), user) == Costs(usage, user)
  {
    var a, b := Costs(Interrupt(usage), user), Costs(usage, user);
    assert a.Keys == b.Keys;
    forall id | id in a ensures a[id] == b[id] {}
  }

  lemma ReserveConserves(b: Books, id: string, who: string, subscription: bool, inputBytes: nat, user: string)
    ensures Spent(ReserveIn(b, id, who, subscription, inputBytes), user) == Spent(b, user)
  {
    var u := Usage(who, subscription, inputBytes + OUTPUT_LIMIT, 0, 0, Pending);
    UsageSums(b.usage, id, u, user);
    hide Holds, Costs, MapSums.Sum;
  }

  lemma ReserveIsSound(b: Books, id: string, who: string, subscription: bool, inputBytes: nat)
    requires Sound(b)
    ensures Sound(ReserveIn(b, id, who, subscription, inputBytes))
  {}

  lemma SettleIsSound(b: Books, id: string, input: nat, output: nat)
    requires Sound(b)
    ensures Sound(SettleIn(b, id, input, output))
  {
    if id in b.usage {
      CostFits(b.usage[id].(input := input, output := output, status := Settled));
    }
    hide Cost;
  }

  lemma SettleSums(usage: map<string, Usage>, id: string, u: Usage, user: string)
    requires id in usage && usage[id].status == Pending && u.status == Settled
    requires u.user == usage[id].user && u.subscription == usage[id].subscription && u.reserved == usage[id].reserved
    ensures MapSums.Sum(Holds(usage[id := u], user)) + MapSums.Sum(Costs(usage[id := u], user))
         == MapSums.Sum(Holds(usage, user)) + MapSums.Sum(Costs(usage, user))
            - if u.subscription && u.user == user then u.reserved - Cost(u) else 0
  {
    UsageSums(usage, id, u, user);
    NotCharged(usage, id, user);
    hide Holds, Costs, Cost, MapSums.Sum;
  }

  lemma SettleConserves(b: Books, id: string, input: nat, output: nat, user: string)
    requires Sound(b)
    ensures Spent(SettleIn(b, id, input, output), user) == Spent(b, user)
  {
    hide Holds, Costs, Cost, MapSums.Sum;
    if id in b.usage && b.usage[id].status == Pending {
      var u := b.usage[id].(input := input, output := output, status := Settled);
      SettleSums(b.usage, id, u, user);
      assert u.subscription ==> u.user in b.balance;
    }
  }

  lemma NotCharged(usage: map<string, Usage>, id: string, user: string)
    requires id in usage && usage[id].status == Pending
    ensures Costs(usage, user)[id] == 0
  {}

  lemma CostFits(u: Usage)
    ensures 0 <= Cost(u) <= u.reserved
  {}

  lemma RestartConserves(b: Books, user: string)
    requires Sound(b)
    ensures Sound(RestartIn(b)) && Spent(RestartIn(b), user) == Spent(b, user)
  {
    hide Holds, Costs, Interrupt, Sound, MapSums.Sum;
    RestartIsSound(b);
    InterruptSums(b.usage, user);
    if user !in b.balance { NoRowNothingHeld(b, user); }
  }

  lemma GrantSums(credits: map<string, Grant>, id: string, g: Grant, user: string)
    requires id !in credits
    ensures MapSums.Sum(Granted(credits[id := g], user))
        == MapSums.Sum(Granted(credits, user)) + if g.user == user then g.amount else 0
  {
    hide MapSums.Sum;
    PutGrant(credits, id, g, user);
    MapSums.SumPut(Granted(credits, user), id, if g.user == user then g.amount else 0);
  }

  lemma InvoiceSums(billing: map<string, Invoice>, e: string, i: Invoice, user: string)
    requires e !in billing
    ensures MapSums.Sum(Invoiced(billing[e := i], user))
        == MapSums.Sum(Invoiced(billing, user)) + if i.user == user then i.amount else 0
  {
    hide MapSums.Sum;
    PutInvoice(billing, e, i, user);
    MapSums.SumPut(Invoiced(billing, user), e, if i.user == user then i.amount else 0);
  }

  lemma CreditConserves(b: Books, id: string, who: string, amount: nat, user: string)
    ensures var c := CreditIn(b, id, who, amount);
      Spent(c, user) - Spent(b, user) == Received(c, user) - Received(b, user)
  {
    hide Holds, Costs, Granted, Invoiced, MapSums.Sum;
    if id !in b.credits { GrantSums(b.credits, id, Grant(who, amount), user); }
  }

  lemma CreditIsSound(b: Books, id: string, who: string, amount: nat)
    requires Sound(b)
    ensures Sound(CreditIn(b, id, who, amount))
  {}

  lemma PaidConserves(b: Books, event: string, invoice: string, who: string, amount: nat, user: string)
    ensures var c := PaidIn(b, event, invoice, who, amount);
      Spent(c, user) - Spent(b, user) == Received(c, user) - Received(b, user)
  {
    assert !KnownInvoice(b, event, invoice) ==> event !in b.billing;
    hide Holds, Costs, Granted, Invoiced, KnownInvoice, MapSums.Sum;
    if !KnownInvoice(b, event, invoice) { InvoiceSums(b.billing, event, Invoice(invoice, who, amount), user); }
  }

  lemma PaidIsSound(b: Books, event: string, invoice: string, who: string, amount: nat)
    requires Sound(b)
    ensures Sound(PaidIn(b, event, invoice, who, amount))
  {}

  lemma OtherTablesStay(b: Books, op: Op, user: string)
    requires !op.Credit? && !op.Paid?
    ensures Received(Apply(b, op), user) == Received(b, user)
  {}

  /** Every operation keeps what a user has, holds and spent in balance with what the
      user received. */
  lemma StepConserves(b: Books, op: Op, user: string)
    requires Sound(b) && Spent(b, user) == Received(b, user)
    ensures Sound(Apply(b, op)) && Spent(Apply(b, op), user) == Received(Apply(b, op), user)
  {
    hide Spent, Received, Sound, ReserveIn, SettleIn, RestartIn, CreditIn, PaidIn;
    match op {
      case Reserve(id, who, s, n) =>
        ReserveConserves(b, id, who, s, n, user);
        ReserveIsSound(b, id, who, s, n);
        OtherTablesStay(b, op, user);
      case Settle(id, i, o) =>
        SettleConserves(b, id, i, o, user);
        SettleIsSound(b, id, i, o);
        OtherTablesStay(b, op, user);
      case Restart => RestartConserves(b, user); OtherTablesStay(b, op, user);
      case Credit(id, who, amount) => CreditConserves(b, id, who, amount, user); CreditIsSound(b, id, who, amount);
      case Paid(event, invoice, who, amount) =>
        PaidConserves(b, event, invoice, who, amount, user);
        PaidIsSound(b, event, invoice, who, amount);
    }
  }

  lemma PutGrant(credits: map<string, Grant>, id: string, g: Grant, user: string)
    ensures Granted(credits[id := g], user) == Granted(credits, user)[id := if g.user == user then g.amount else 0]
  {}

  lemma PutInvoice(billing: map<string, Invoice>, e: string, i: Invoice, user: string)
    ensures Invoiced(billing[e := i], user) == Invoiced(billing, user)[e := if i.user == user then i.amount else 0]
  {}

  lemma NoRowNothingHeld(b: Books, user: string)
    requires Sound(b) && user !in b.balance
    ensures MapSums.Sum(Holds(b.usage, user)) == 0
  {
    MapSums.SumOfZeros(Holds(b.usage, user));
  }

  lemma {:induction false} SumIsNonNegative(m: map<string, int>)
    requires forall k :: k in m ==> m[k] >= 0
    ensures MapSums.Sum(m) >= 0
    decreases |m|
  {
    if |m| != 0 {
      var k :| k in m;
      MapSums.Smaller(m, k);
      MapSums.SumTake(m, k);
      SumIsNonNegative(m - {k});
    }
  }

  lemma HoldsAreNonNegative(usage: map<string, Usage>, user: string)
    ensures MapSums.Sum(Holds(usage, user)) >= 0
  {
    SumIsNonNegative(Holds(usage, user));
  }

  lemma RestartIsSound(b: Books)
    requires Sound(b)
    ensures Sound(RestartIn(b))
  {
    hide Holds, MapSums.Sum;
    forall user | user in b.balance ensures Refunds(b)[user] >= 0 { HoldsAreNonNegative(b.usage, user); }
  }

  // ---- whole histories ----

  ghost function Run(ops: seq<Op>): Books {
    if |ops| == 0 then NEW else Apply(Run(ops[..|ops| - 1]), ops[|ops| - 1])
  }

  // ---- top-ups, by the operations alone ----

  /** The operation at index i tops up: no earlier credit has its identifier, or no
      earlier payment that topped up has its event or its invoice. */
  predicate TopsUp(ops: seq<Op>, i: nat)
    requires i < |ops|
    decreases i
  {
    match ops[i]
    case Credit(id, _, _) => forall j :: 0 <= j < i && ops[j].Credit? ==> ops[j].id != id
    case Paid(event, invoice, _, _) =>
      forall j :: 0 <= j < i && ops[j].Paid? && TopsUp(ops, j) ==> ops[j].event != event && ops[j].invoice != invoice
    case _ => false
  }

  /** What a user was topped up by: the amounts of those operations. */
  function ToppedUp(ops: seq<Op>, n: nat, user: string): nat
    requires n <= |ops|
  {
    if n == 0 then 0
    else ToppedUp(ops, n - 1, user) + if TopsUp(ops, n - 1) && ops[n - 1].user == user then ops[n - 1].amount else 0
  }

  lemma {:induction false} ReceivedIsSpent(ops: seq<Op>, user: string)
    ensures Sound(Run(ops)) && Spent(Run(ops), user) == Received(Run(ops), user)
  {
    if |ops| > 0 {
      ReceivedIsSpent(ops[..|ops| - 1], user);
      hide Sound, Spent, Received, Apply;
      StepConserves(Run(ops[..|ops| - 1]), ops[|ops| - 1], user);
    }
  }

  lemma {:induction false} TopsUpInPrefix(ops: seq<Op>, n: nat, i: nat)
    requires i < n <= |ops|
    ensures TopsUp(ops[..n], i) == TopsUp(ops, i)
    decreases i
  {
    forall j: nat | j < i ensures TopsUp(ops[..n], j) == TopsUp(ops, j) { TopsUpInPrefix(ops, n, j); }
  }

  lemma {:induction false} ToppedUpInPrefix(ops: seq<Op>, n: nat, k: nat, user: string)
    requires k <= n <= |ops|
    ensures ToppedUp(ops[..n], k, user) == ToppedUp(ops, k, user)
  {
    if k > 0 {
      ToppedUpInPrefix(ops, n, k - 1, user);
      TopsUpInPrefix(ops, n, k - 1);
    }
  }

  ghost predicate CreditAt(ops: seq<Op>, j: nat, id: string) {
    j < |ops| && ops[j].Credit? && ops[j].id == id
  }

  ghost predicate PaidAt(ops: seq<Op>, j: nat, event: string, invoice: string) {
    j < |ops| && ops[j].Paid? && ops[j].event == event && ops[j].invoice == invoice && TopsUp(ops, j)
  }

  ghost predicate Credited(ops: seq<Op>, id: string) {
    exists j: nat :: CreditAt(ops, j, id)
  }

  ghost predicate Invoices(ops: seq<Op>, event: string, invoice: string) {
    exists j: nat :: PaidAt(ops, j, event, invoice)
  }

  /** The tables know exactly the credits, events and invoices of the history. */
  ghost predicate Remembers(b: Books, ops: seq<Op>) {
    && (forall id :: id in b.credits <==> Credited(ops, id))
    && (forall e, i :: e in b.billing && b.billing[e].invoice == i <==> Invoices(ops, e, i))
  }

  /** Exactly what a credit does: unless its identifier is known, the balance of its user
      rises by its amount, and no other balance changes. */
  lemma CreditTopsUp(b: Books, id: string, who: string, amount: nat, user: string)
    ensures Balance(CreditIn(b, id, who, amount), user) - Balance(b, user)
         == if id !in b.credits && user == who then amount else 0
  {}

  /** The same for a payment, unless its event or its invoice is known. */
  lemma PaidTopsUp(b: Books, event: string, invoice: string, who: string, amount: nat, user: string)
    ensures Balance(PaidIn(b, event, invoice, who, amount), user) - Balance(b, user)
         == if event !in b.billing && (forall e :: e in b.billing ==> b.billing[e].invoice != invoice) && user == who
            then amount else 0
  {}

  lemma CreditedGrows(before: seq<Op>, op: Op, id: string)
    ensures Credited(before + [op], id) <==> Credited(before, id) || (op.Credit? && op.id == id)
    ensures op.Credit? ==> (TopsUp(before + [op], |before|) <==> !Credited(before, op.id))
  {
    var ops := before + [op];
    forall j: nat | j < |before| ensures CreditAt(ops, j, id) == CreditAt(before, j, id) {}
    if op.Credit? {
      forall j: nat | j < |before| ensures CreditAt(before, j, op.id) <==> ops[j].Credit? && ops[j].id == op.id {}
      if op.id == id { assert CreditAt(ops, |before|, id); }
    }
    if Credited(before, id) {
      var j: nat :| CreditAt(before, j, id);
      assert CreditAt(ops, j, id);
    }
  }

  lemma PaidAtGrows(before: seq<Op>, op: Op, j: nat, event: string, invoice: string)
    ensures PaidAt(before + [op], j, event, invoice) <==>
      || PaidAt(before, j, event, invoice)
      || (j == |before| && op.Paid? && op.event == event && op.invoice == invoice && TopsUp(before + [op], j))
  {
    var ops := before + [op];
    assert ops[..|before|] == before;
    if j < |before| { TopsUpInPrefix(ops, |before|, j); }
    hide TopsUp;
  }

  lemma InvoicesGrow(before: seq<Op>, op: Op, event: string, invoice: string)
    ensures Invoices(before + [op], event, invoice) <==>
      || Invoices(before, event, invoice)
      || (op.Paid? && op.event == event && op.invoice == invoice && TopsUp(before + [op], |before|))
  {
    forall j: nat ensures PaidAt(before + [op], j, event, invoice) <==>
      || PaidAt(before, j, event, invoice)
      || (j == |before| && op.Paid? && op.event == event && op.invoice == invoice && TopsUp(before + [op], j))
    {
      PaidAtGrows(before, op, j, event, invoice);
    }
    hide PaidAt, TopsUp;
  }

  lemma PaidTopsUpOnce(before: seq<Op>, op: Op)
    requires op.Paid?
    ensures TopsUp(before + [op], |before|) <==>
      forall e, i :: Invoices(before, e, i) ==> op.event != e && op.invoice != i
  {
    var ops := before + [op];
    forall j: nat | j < |before|
      ensures ops[j].Paid? ==> (PaidAt(before, j, ops[j].event, ops[j].invoice) <==> TopsUp(ops, j))
    {
      assert ops[..|before|] == before;
      TopsUpInPrefix(ops, |before|, j);
      hide TopsUp;
    }
    assert TopsUp(ops, |before|) <==> forall j: nat :: j < |before| && ops[j].Paid? && TopsUp(ops, j) ==>
      ops[j].event != op.event && ops[j].invoice != op.invoice;
    hide TopsUp;
    if !TopsUp(ops, |before|) {
      var j: nat :| j < |before| && ops[j].Paid? && TopsUp(ops, j)
                    && !(ops[j].event != op.event && ops[j].invoice != op.invoice);
      assert PaidAt(before, j, ops[j].event, ops[j].invoice);
      assert Invoices(before, ops[j].event, ops[j].invoice);
    } else {
      forall e, i | Invoices(before, e, i) ensures op.event != e && op.invoice != i {
        var j: nat :| PaidAt(before, j, e, i);
        assert ops[j] == before[j] && TopsUp(ops, j);
      }
    }
  }

  /** Whether an operation tops up can be read off the tables. */
  lemma TopsUpByTables(b: Books, before: seq<Op>, op: Op)
    requires Remembers(b, before)
    ensures TopsUp(before + [op], |before|) <==>
      (op.Credit? && op.id !in b.credits) || (op.Paid? && !KnownInvoice(b, op.event, op.invoice))
  {
    if op.Paid? {
      PaidTopsUpOnce(before, op);
      hide Credited, Invoices, TopsUp;
      forall e | e in b.billing ensures Invoices(before, e, b.billing[e].invoice) {}
    } else if op.Credit? {
      CreditedGrows(before, op, op.id);
      hide Credited, Invoices, TopsUp;
    }
  }

  lemma RemembersMore(b: Books, before: seq<Op>, op: Op)
    requires Remembers(b, before)
    ensures Remembers(Apply(b, op), before + [op])
  {
    var ops := before + [op];
    var c := Apply(b, op);
    TopsUpByTables(b, before, op);
    hide Credited, Invoices, TopsUp, ReserveIn, SettleIn, RestartIn;
    if op.Credit? || op.Paid? { hide KnownInvoice; }
    TablesGrow(b, op);
    forall id ensures id in c.credits <==> Credited(ops, id) { CreditedGrows(before, op, id); }
    hide Apply;
    forall e, i ensures e in c.billing && c.billing[e].invoice == i <==> Invoices(ops, e, i) {
      InvoicesGrow(before, op, e, i);
    }
  }

  lemma TablesGrow(b: Books, op: Op)
    ensures var c := Apply(b, op);
      && c.credits.Keys == (if op.Credit? then b.credits.Keys + {op.id} else b.credits.Keys)
      && (if op.Paid? && !KnownInvoice(b, op.event, op.invoice)
          then c.billing.Keys == b.billing.Keys + {op.event} && c.billing[op.event].invoice == op.invoice
          else c.billing == b.billing)
      && (forall e :: e in b.billing ==> e in c.billing && c.billing[e] == b.billing[e])
  {
    hide Refunds, Interrupt;
    if op.Paid? && !KnownInvoice(b, op.event, op.invoice) { assert op.event !in b.billing; }
  }

  lemma {:induction false} RunRemembers(ops: seq<Op>)
    ensures Remembers(Run(ops), ops)
  {
    hide Apply;
    if |ops| > 0 {
      var before, op := ops[..|ops| - 1], ops[|ops| - 1];
      RunRemembers(before);
      RemembersMore(Run(before), before, op);
      assert before + [op] == ops;
    } else {
      NothingRemembered(ops);
    }
    hide Remembers;
  }

  lemma NothingRemembered(ops: seq<Op>)
    requires ops == []
    ensures Remembers(NEW, ops) && Run(ops) == NEW
  {}

  /** What a user has, holds and spent changes by what the operation tops up, no more and
      no less. */
  lemma SpentStep(b: Books, before: seq<Op>, op: Op, user: string)
    requires Sound(b) && Remembers(b, before)
    ensures Spent(Apply(b, op), user) - Spent(b, user)
         == if TopsUp(before + [op], |before|) && op.user == user then op.amount else 0
  {
    TopsUpByTables(b, before, op);
    hide Sound, Remembers, TopsUp, Holds, Costs, MapSums.Sum;
    match op {
      case Reserve(id, who, s, n) => ReserveConserves(b, id, who, s, n, user);
      case Settle(id, i, o) => SettleConserves(b, id, i, o, user);
      case Restart => RestartConserves(b, user);
      case Credit(id, who, amount) => CreditTopsUp(b, id, who, amount, user);
      case Paid(event, invoice, who, amount) => PaidTopsUp(b, event, invoice, who, amount, user);
    }
  }

  /** The same equation over the amounts that were granted and paid, whatever the tables
      say of them. */
  lemma {:induction false} SpentIsToppedUp(ops: seq<Op>, user: string)
    ensures Spent(Run(ops), user) == ToppedUp(ops, |ops|, user)
  {
    hide Spent, TopsUp;
    if |ops| > 0 {
      var n := |ops| - 1;
      var before, op := ops[..n], ops[n];
      assert before + [op] == ops;
      SpentIsToppedUp(before, user);
      RunRemembers(before);
      ReceivedIsSpent(before, user);
      hide Apply, Remembers, Sound;
      SpentStep(Run(before), before, op, user);
      ToppedUpInPrefix(ops, n, n, user);
    } else {
      NothingSpent(ops, user);
    }
  }

  lemma NothingSpent(ops: seq<Op>, user: string)
    requires ops == []
    ensures Spent(Run(ops), user) == 0
  {}

  /** Under every interleaving of calls, repeated settlements, restarts and retried
      top-ups: balance + reservations held + cost of settled calls equals distinct
      credit events + distinct invoices, for every user, and no balance is negative. That
      is the sum of the amounts of the first credit of each identifier and the first
      payment of each event and invoice in the history. */
  lemma {:induction false} LedgerConserves(ops: seq<Op>, user: string)
    ensures var b := Run(ops);
      && Sound(b) && Balance(b, user) >= 0
      && Balance(b, user) + MapSums.Sum(Holds(b.usage, user)) + MapSums.Sum(Costs(b.usage, user))
         == MapSums.Sum(Granted(b.credits, user)) + MapSums.Sum(Invoiced(b.billing, user))
         == ToppedUp(ops, |ops|, user)
  {
    SpentIsToppedUp(ops, user);
    ReceivedIsSpent(ops, user);
    hide Holds, Costs, Granted, Invoiced, Run, ToppedUp;
  }

  /** The call in a row was asked for with the input that its reservation covers, and if it
      is settled, it is with the usage that was reported later. */
  ghost predicate Asked(ops: seq<Op>, i: nat, id: string, u: Usage) {
    && i < |ops| && ops[i].Reserve? && ops[i].id == id && ops[i].user == u.user
    && ops[i].subscription == u.subscription && u.reserved == ops[i].inputBytes + 4096
    && (u.status == Settled ==> exists k :: i < k < |ops| && ops[k] == Op.Settle(id, u.input, u.output))
  }

  lemma RowStep(b: Books, op: Op, id: string)
    requires id in Apply(b, op).usage
    ensures var u := Apply(b, op).usage[id];
      if id in b.usage then
        && u.user == b.usage[id].user && u.subscription == b.usage[id].subscription
        && u.reserved == b.usage[id].reserved
        && (u.status == Settled ==> u == b.usage[id] || op == Op.Settle(id, u.input, u.output))
      else
        op.Reserve? && op.id == id && u == Usage(op.user, op.subscription, op.inputBytes + 4096, 0, 0, Pending)
  {
    hide Refunds, Cost;
  }

  /** Every row of the usage table is a call of the history. */
  lemma {:induction false} CallsAreAsked(ops: seq<Op>, id: string)
    requires id in Run(ops).usage
    ensures exists i: nat :: Asked(ops, i, id, Run(ops).usage[id])
  {
    var n := |ops| - 1;
    var before, op := ops[..n], ops[n];
    var b, u := Run(before), Run(ops).usage[id];
    RowStep(b, op, id);
    hide Apply;
    if id in b.usage {
      CallsAreAsked(before, id);
      var i: nat :| Asked(before, i, id, b.usage[id]);
      AskedLater(before, op, i, id, b.usage[id], u);
      assert before + [op] == ops;
    } else {
      assert Asked(ops, n, id, u);
    }
  }

  lemma AskedLater(before: seq<Op>, op: Op, i: nat, id: string, was: Usage, u: Usage)
    requires Asked(before, i, id, was)
    requires u.user == was.user && u.subscription == was.subscription && u.reserved == was.reserved
    requires u.status == Settled ==> u == was || op == Op.Settle(id, u.input, u.output)
    ensures Asked(before + [op], i, id, u)
  {
    var ops := before + [op];
    assert ops[i] == before[i];
    if u.status == Settled && u == was {
      var k :| i < k < |before| && before[k] == Op.Settle(id, u.input, u.output);
      assert ops[k] == before[k];
    } else if u.status == Settled {
      assert ops[|before|] == op;
    }
  }

  /** Top-ups already booked, and calls already closed, at some point of a history. */
  ghost predicate Booked(b: Books, op: Op) {
    match op
    case Credit(id, _, _) => id in b.credits
    case Paid(event, invoice, _, _) => KnownInvoice(b, event, invoice)
    case Settle(id, _, _) => id in b.usage && b.usage[id].status != Pending
    case _ => false
  }

  lemma BookedStays(b: Books, op: Op, next: Op)
    requires Booked(b, op)
    ensures Booked(Apply(b, next), op)
  {
    hide Refunds;
    if op.Paid? {
      if op.event !in b.billing {
        var e :| e in b.billing && b.billing[e].invoice == op.invoice;
        assert e in Apply(b, next).billing && Apply(b, next).billing[e] == b.billing[e];
      } else {
        assert op.event in Apply(b, next).billing;
      }
    }
  }

  /** A credit event, a paid invoice or a settlement that was booked once changes
      nothing when it is repeated, however much later. */
  lemma {:induction false} RetriesChangeNothing(ops: seq<Op>, i: nat, op: Op)
    requires i <= |ops| && Booked(Run(ops[..i]), op)
    ensures Booked(Run(ops), op) && Apply(Run(ops), op) == Run(ops)
    decreases |ops| - i
  {
    if i == |ops| {
      assert ops[..i] == ops;
    } else {
      assert ops[..i + 1][..i] == ops[..i];
      BookedStays(Run(ops[..i]), op, ops[i]);
      hide Apply;
      RetriesChangeNothing(ops, i + 1, op);
    }
  }

  /** A booked top-up is booked from then on. */
  lemma TopUpsAreBooked(b: Books, op: Op)
    requires op.Credit? || op.Paid?
    ensures Booked(Apply(b, op), op)
  {
    if op.Paid? && !KnownInvoice(b, op.event, op.invoice) {
      assert op.event in Apply(b, op).billing;
    }
  }

  /** A settlement closes its call, of a subscription or not, and a restart closes all. */
  lemma CallsAreClosed(b: Books, id: string, input: nat, output: nat)
    requires id in b.usage
    ensures Booked(Apply(b, Op.Settle(id, input, output)), Op.Settle(id, input, output))
    ensures forall other :: other in Apply(b, Restart).usage ==> Apply(b, Restart).usage[other].status != Pending
    ensures Apply(b, Restart).usage.Keys == b.usage.Keys
  {
    hide Refunds, Cost;
  }

  /** A settlement arriving after a restart finds its reservation refunded and closed. */
  lemma LateSettlementIsIgnored(b: Books, id: string, input: nat, output: nat)
    requires id in b.usage
    ensures SettleIn(RestartIn(b), id, input, output) == RestartIn(b)
  {
    hide Refunds;
  }

  // ---- one model call ----

  /** What the provider reported: nothing usable, or an answer with optional usage. */
  datatype Provider = NoAnswer | Answered(usage: Option<(int, int)>)

  predicate Plausible(usage: Option<(int, int)>, reserve: nat) {
    usage.Some? && 0 <= usage.value.0 <= reserve && 0 <= usage.value.1 <= reserve
  }

  /** Tokens settled at the end of a call. */
  function Verdict(inputBytes: nat, p: Provider): (nat, nat) {
    if p.NoAnswer? then (0, 0)
    else if Plausible(p.usage, inputBytes + OUTPUT_LIMIT) then (p.usage.value.0, p.usage.value.1)
    else (inputBytes, OUTPUT_LIMIT)
  }

  /** A completed subscription call costs at most its reservation: nothing when the
      provider failed, the whole reservation when its usage report is unusable. */
  lemma CallCosts(b: Books, id: string, user: string, inputBytes: nat, p: Provider)
    requires CanReserve(b, id, user, true, inputBytes + OUTPUT_LIMIT)
    ensures var (input, output) := Verdict(inputBytes, p);
      var c := SettleIn(ReserveIn(b, id, user, true, inputBytes), id, input, output);
      var cost := Balance(b, user) - Balance(c, user);
      && 0 <= cost <= inputBytes + OUTPUT_LIMIT
      && (p.NoAnswer? ==> cost == 0)
      && (p.Answered? && !Plausible(p.usage, inputBytes + OUTPUT_LIMIT) ==> cost == inputBytes + OUTPUT_LIMIT)
      && (p.Answered? && Plausible(p.usage, inputBytes + OUTPUT_LIMIT)
          ==> cost == Least(p.usage.value.0 + p.usage.value.1, inputBytes + OUTPUT_LIMIT))
  {}

  // ---- the tables as the source updates them ----

  /** The refunds of the reservations in `done` have been added to the balances. */
  ghost predicate Refunding(before: Books, balance: map<string, int>, done: map<string, Usage>) {
    && balance.Keys == before.balance.Keys
    && forall user :: user in balance ==> balance[user] == before.balance[user] + MapSums.Sum(Holds(done, user))
  }

  lemma RefundStart(before: Books)
    ensures Refunding(before, before.balance, map[])
  {
    forall user ensures MapSums.Sum(Holds(map[], user)) == 0 { MapSums.SumOfZeros(Holds(map[], user)); }
  }

  lemma RefundStep(before: Books, balance: map<string, int>, done: map<string, Usage>, id: string, u: Usage)
    requires Refunding(before, balance, done) && id !in done
    ensures Refunding(before, if Held(u, u.user) && u.user in balance
                              then balance[u.user := balance[u.user] + u.reserved] else balance, done[id := u])
  {
    hide Holds, MapSums.Sum;
    var next :=
      if Held(u, u.user) && u.user in balance then balance[u.user := balance[u.user] + u.reserved] else balance;
    forall user | user in next ensures next[user] == before.balance[user] + MapSums.Sum(Holds(done[id := u], user)) {
      HoldsGrow(done, id, u, user);
    }
  }

  lemma HoldsGrow(done: map<string, Usage>, id: string, u: Usage, user: string)
    requires id !in done
    ensures MapSums.Sum(Holds(done[id := u], user))
        == MapSums.Sum(Holds(done, user)) + if Held(u, user) then u.reserved else 0
  {
    hide Holds, Costs, MapSums.Sum;
    UsageSums(done, id, u, user);
  }

  lemma RefundEnd(before: Books, balance: map<string, int>)
    requires Refunding(before, balance, before.usage)
    ensures RestartIn(before) == Books(balance, Interrupt(before.usage), before.credits, before.billing)
  {
    hide Holds, Interrupt;
    assert Refunds(before).Keys == balance.Keys;
    forall user | user in balance ensures Refunds(before)[user] == balance[user] {}
  }

  class Accounts {
    var balance: map<string, int>
    var usage: map<string, Usage>
    var credits: map<string, Grant>
    var billing: map<string, Invoice>

    ghost function State(): Books
      reads this
    {
      Books(balance, usage, credits, billing)
    }

    constructor ()
      ensures State() == NEW
    {
      balance, usage, credits, billing := map[], map[], map[], map[];
    }

    /** Reserves the whole possible cost, or refuses and changes nothing. A balance equal
        to the reservation is enough. */
    method Reserve(id: string, user: string, subscription: bool, inputBytes: nat) returns (ok: bool)
      modifies this
      ensures ok == CanReserve(old(State()), id, user, subscription, inputBytes + OUTPUT_LIMIT)
      ensures State() == ReserveIn(old(State()), id, user, subscription, inputBytes)
      ensures ok <==> id !in old(usage)
                      && (subscription ==> user in old(balance) && old(balance)[user] >= inputBytes + 4096)
      ensures ok && subscription ==> user in balance && balance[user] == old(balance)[user] - (inputBytes + 4096)
      ensures forall other :: other in balance && (other != user || !subscription || !ok) ==>
        other in old(balance) && balance[other] == old(balance)[other]
    {
      var reserve := inputBytes + OUTPUT_LIMIT;
      if id in usage { return false; }
      if subscription {
        if user !in balance || balance[user] < reserve { return false; }
        balance := balance[user := balance[user] - reserve];
      }
      usage := usage[id := Usage(user, subscription, reserve, 0, 0, Pending)];
      return true;
    }

    method Settle(id: string, input: nat, output: nat)
      modifies this
      ensures State() == SettleIn(old(State()), id, input, output)
    {
      if id !in usage || usage[id].status != Pending { return; }
      var u := usage[id].(input := input, output := output, status := Settled);
      usage := usage[id := u];
      if u.subscription && u.user in balance {
        var used := u.input + u.output;
        if used > u.reserved { used := u.reserved; }
        balance := balance[u.user := balance[u.user] + u.reserved - used];
      }
    }

    /** Refunds every pending subscription reservation, then closes every pending call. */
    method RecoverInterrupted()
      modifies this
      ensures State() == RestartIn(old(State()))
    {
      hide Refunding, RestartIn, Held;
      ghost var before := State();
      var ids := usage.Keys;
      ghost var done: map<string, Usage> := map[];
      RefundStart(before);
      while ids != {}
        invariant ids <= usage.Keys && done.Keys == usage.Keys - ids
        invariant forall id :: id in done ==> done[id] == usage[id]
        invariant usage == before.usage && credits == before.credits && billing == before.billing
        invariant Refunding(before, balance, done)
      {
        var id :| id in ids;
        var u := usage[id];
        RefundStep(before, balance, done, id, u);
        if Held(u, u.user) && u.user in balance {
          balance := balance[u.user := balance[u.user] + u.reserved];
        }
        done := done[id := u];
        ids := ids - {id};
      }
      assert done == usage;
      RefundEnd(before, balance);
      usage := Interrupt(usage);
    }

    /** Books a credit event once; the same event with other content is a conflict. */
    method Credit(id: string, user: string, amount: nat) returns (conflict: bool)
      modifies this
      ensures State() == CreditIn(old(State()), id, user, amount)
      ensures forall other ::
        Balance(State(), other) - Balance(old(State()), other)
          == if id !in old(credits) && other == user then amount else 0
      ensures conflict <==> id in old(credits) && old(credits)[id] != Grant(user, amount)
    {
      if id in credits { return credits[id] != Grant(user, amount); }
      credits := credits[id := Grant(user, amount)];
      balance := balance[user := (if user in balance then balance[user] else 0) + amount];
      return false;
    }

    /** Books a paid invoice unless its event or its invoice is known. */
    method InvoicePaid(event: string, invoice: string, user: string, amount: nat)
      modifies this
      ensures State() == PaidIn(old(State()), event, invoice, user, amount)
      ensures var known := event in old(billing) || exists e :: e in old(billing) && old(billing)[e].invoice == invoice;
        forall other ::
          Balance(State(), other) - Balance(old(State()), other) == if !known && other == user then amount else 0
    {
      if event in billing || exists e :: e in billing && billing[e].invoice == invoice { return; }
      billing := billing[event := Invoice(invoice, user, amount)];
      balance := balance[user := (if user in balance then balance[user] else 0) + amount];
    }
  }
}
