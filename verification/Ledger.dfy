/**
 * Tenant balances and the transaction ledger
 * (src/transactions/transactions.service.ts, src/billing/billing.service.ts), and
 * how completions use them: the balance is checked before a completion and
 * charged some time after it (src/agents/llm.service.ts).
 */
module Ledger {
  import opened Common

  datatype Kind = Recharge | Gift | Refund | Expense | OtherKind

  datatype Row = Row(tenant: string, txId: string, kind: Kind, amount: int)

  datatype Books = Books(balances: map<string, int>, rows: seq<Row>)

  datatype Error = NoTenant | InsufficientBalance | InvalidAmountAndType | DuplicateTxId

  datatype Outcome<T> = Fine(value: T) | Refused(error: Error)

  /** The sign test of `create`. */
  predicate ValidSign(kind: Kind, amount: int) {
    && (amount > 0 ==> kind != Expense && kind != Refund)
    && (amount < 0 ==> kind != Recharge && kind != Gift)
  }

  /** `txId` carries a unique index. */
  predicate Recorded(rows: seq<Row>, txId: string) {
    exists i :: 0 <= i < |rows| && rows[i].txId == txId
  }

  /** One transaction; on any error it is rolled back as a whole. */
  function Created(b: Books, row: Row): Outcome<Books> {
    if row.tenant !in b.balances then Refused(NoTenant)
    else if !ValidSign(row.kind, row.amount) then Refused(InvalidAmountAndType)
    else if Recorded(b.rows, row.txId) then Refused(DuplicateTxId)
    else Fine(Books(b.balances[row.tenant := b.balances[row.tenant] + row.amount], b.rows + [row]))
  }

  function Book(b: Books, row: Row): Books {
    if Created(b, row).Fine? then Created(b, row).value else b
  }

  class TransactionsService {
    var balances: map<string, int>
    var rows: seq<Row>

    constructor (balances: map<string, int>)
      ensures this.balances == balances && rows == []
    {
      this.balances, rows := balances, [];
    }

    /** The balance, if it is positive. */
    method Check(tenant: string) returns (r: Outcome<int>)
      ensures r.Fine? <==> tenant in balances && balances[tenant] > 0
      ensures r.Fine? ==> r.value == balances[tenant]
      ensures r.Refused? ==> r.error == if tenant in balances then InsufficientBalance else NoTenant
    {
      if tenant !in balances {
        return Refused(NoTenant);
      }
      if balances[tenant] <= 0 {
        return Refused(InsufficientBalance);
      }
      return Fine(balances[tenant]);
    }

    /** Insert the row, then increment the balance; a violated index undoes both. */
    method Create(tenant: string, txId: string, kind: Kind, amount: int) returns (r: Outcome<int>)
      modifies this
      ensures Books(balances, rows) == Book(old(Books(balances, rows)), Row(tenant, txId, kind, amount))
      ensures r.Fine? <==>
                && tenant in old(balances)
                && !(amount > 0 && (kind == Expense || kind == Refund))
                && !(amount < 0 && (kind == Recharge || kind == Gift))
                && forall row :: row in old(rows) ==> row.txId != txId
      ensures r.Fine? ==>
                && rows == old(rows) + [Row(tenant, txId, kind, amount)]
                && balances == old(balances)[tenant := old(balances)[tenant] + amount]
                && r.value == balances[tenant]
      ensures r.Refused? ==> rows == old(rows) && balances == old(balances)
      ensures r == Refused(NoTenant) <==> tenant !in old(balances)
      ensures r == Refused(InvalidAmountAndType) <==>
                && tenant in old(balances)
                && (if amount > 0 then kind == Expense || kind == Refund else amount < 0 && (kind == Recharge || kind == Gift))
      ensures r != Refused(InsufficientBalance)
    {
      if tenant !in balances {
        return Refused(NoTenant);
      }
      if (amount > 0 && (kind == Expense || kind == Refund)) || (amount < 0 && (kind == Recharge || kind == Gift)) {
        return Refused(InvalidAmountAndType);
      }
      var known := set row | row in rows :: row.txId;
      if txId in known {
        assert Recorded(rows, txId);
        return Refused(DuplicateTxId);
      }
      assert !Recorded(rows, txId) by {
        assert forall i :: 0 <= i < |rows| ==> rows[i] in rows && rows[i].txId in known;
      }
      rows := rows + [Row(tenant, txId, kind, amount)];
      balances := balances[tenant := balances[tenant] + amount];
      return Fine(balances[tenant]);
    }
  }

  // ------------------------------------------------------------------- pricing

  datatype Pricing = Pricing(provider: string, price: int)

  function Applicable(models: seq<Pricing>, provider: string): (r: seq<Pricing>)
    ensures forall m :: m in r <==> m in models && (m.provider == "" || m.provider == provider)
  {
    if models == [] then []
    else
      var rest := Applicable(models[1..], provider);
      if models[0].provider == "" || models[0].provider == provider then [models[0]] + rest else rest
  }

  function FirstOfProvider(models: seq<Pricing>): (r: Option<Pricing>)
    ensures r.Some? ==> r.value in models && r.value.provider != ""
    ensures r.None? ==> forall m :: m in models ==> m.provider == ""
  {
    if models == [] then None
    else if models[0].provider != "" then Some(models[0])
    else FirstOfProvider(models[1..])
  }

  /** The price row for a model's provider, among the rows of that model. */
  function PricingFor(models: seq<Pricing>, provider: string): Option<Pricing> {
    var ms := Applicable(models, provider);
    if ms == [] then None else if |ms| > 1 then FirstOfProvider(ms) else Some(ms[0])
  }

  /** The unique index on model and provider, within one model. */
  ghost predicate OnePerProvider(models: seq<Pricing>) {
    forall i, j :: 0 <= i < j < |models| ==> models[i].provider != models[j].provider
  }

  lemma {:induction false} ApplicableDistinct(models: seq<Pricing>, provider: string)
    requires OnePerProvider(models)
    ensures OnePerProvider(Applicable(models, provider))
  {
    if models != [] {
      assert OnePerProvider(models[1..]);
      ApplicableDistinct(models[1..], provider);
      var rest := Applicable(models[1..], provider);
      assert OnePerProvider(rest);
      forall j | 0 <= j < |rest|
        ensures rest[j].provider != models[0].provider
      {
        assert rest[j] in models[1..];
        var k :| 0 <= k < |models[1..]| && models[1..][k] == rest[j];
        assert models[k + 1] == rest[j];
      }
      assert OnePerProvider([models[0]] + rest);
    }
  }

  /**
   * With one row per model and provider, the provider's own row is used when
   * there is one, the default row otherwise, and none exactly when both are missing.
   */
  lemma PricingIsMostSpecific(models: seq<Pricing>, provider: string)
    requires OnePerProvider(models)
    ensures var p := PricingFor(models, provider);
            && (p.None? <==> forall m :: m in models ==> m.provider != "" && m.provider != provider)
            && (p.Some? ==> p.value in models)
            && (p.Some? ==> p.value.provider == if exists m :: m in models && m.provider == provider then provider else "")
  {
    ApplicableDistinct(models, provider);
    var ms := Applicable(models, provider);
    if ms != [] {
      assert ms[0] in ms;
      if |ms| > 1 {
        assert ms[1] in ms && ms[0].provider != ms[1].provider;
        assert FirstOfProvider(ms).Some?;
      } else {
        assert forall m :: m in ms ==> m == ms[0];
        assert PricingFor(models, provider) == Some(ms[0]);
      }
    } else {
      assert forall m :: m in models ==> m !in ms;
    }
  }

  // -------------------------------------------------------------- conservation

  /** What a completion costs is computed by the price row's script; only positive costs are accepted. */
  datatype Step =
    | Begin(tenant: string)
    | Charge(flight: nat, txId: string, cost: int)
    | Lose(flight: nat)
    | Pay(row: Row)

  /** The books and the tenants of the completions that were checked and not yet charged. */
  datatype Billing = Billing(books: Books, flights: seq<string>)

  function Without(q: seq<string>, i: nat): seq<string>
    requires i < |q|
  {
    q[..i] + q[i + 1..]
  }

  /** A completion begins only with a positive balance. */
  function Take(s: Billing, step: Step): Billing {
    match step
    case Begin(t) =>
      if t in s.books.balances && s.books.balances[t] > 0 then s.(flights := s.flights + [t]) else s
    case Charge(i, txId, cost) =>
      if i >= |s.flights| then s
      else if cost <= 0 then Billing(s.books, Without(s.flights, i))
      else Billing(Book(s.books, Row(s.flights[i], txId, Expense, -cost)), Without(s.flights, i))
    case Lose(i) => if i >= |s.flights| then s else s.(flights := Without(s.flights, i))
    case Pay(row) => s.(books := Book(s.books, row))
  }

  /** A payment of an allowed sign under a new external id raises its tenant's balance by its amount, and nobody else's. */
  lemma PayRaises(s: Billing, row: Row)
    requires row.tenant in s.books.balances
    requires if row.amount > 0 then row.kind != Expense && row.kind != Refund
             else row.amount == 0 || (row.kind != Recharge && row.kind != Gift)
    requires forall r :: r in s.books.rows ==> r.txId != row.txId
    ensures var s' := Take(s, Pay(row));
            && s'.books.balances == s.books.balances[row.tenant := s.books.balances[row.tenant] + row.amount]
            && s'.books.rows == s.books.rows + [row] && s'.flights == s.flights
  {}

  /** A completion that costs something, under a new external id, lowers its tenant's balance by the cost and is over. */
  lemma ChargeLowers(s: Billing, i: nat, txId: string, cost: int)
    requires i < |s.flights| && s.flights[i] in s.books.balances && cost > 0
    requires forall r :: r in s.books.rows ==> r.txId != txId
    ensures var s' := Take(s, Charge(i, txId, cost));
            && s'.books.balances == s.books.balances[s.flights[i] := s.books.balances[s.flights[i]] - cost]
            && s'.books.rows == s.books.rows + [Row(s.flights[i], txId, Expense, -cost)]
            && s'.flights == s.flights[..i] + s.flights[i + 1..]
  {}

  function TakeAll(s: Billing, steps: seq<Step>): Billing
    decreases |steps|
  {
    if steps == [] then s else TakeAll(Take(s, steps[0]), steps[1..])
  }

  function Total(rows: seq<Row>, tenant: string): int {
    if rows == [] then 0
    else (if rows[|rows| - 1].tenant == tenant then rows[|rows| - 1].amount else 0) + Total(rows[..|rows| - 1], tenant)
  }

  /** Balances are the starting balances plus the recorded amounts; the rows are well signed and unique. */
  ghost predicate Balanced(start: map<string, int>, b: Books) {
    && b.balances.Keys == start.Keys
    && (forall t :: t in start ==> b.balances[t] == start[t] + Total(b.rows, t))
    && (forall i :: 0 <= i < |b.rows| ==> b.rows[i].tenant in start && ValidSign(b.rows[i].kind, b.rows[i].amount))
    && (forall i, j :: 0 <= i < j < |b.rows| ==> b.rows[i].txId != b.rows[j].txId)
  }

  lemma BookBalances(start: map<string, int>, b: Books, row: Row)
    requires Balanced(start, b)
    ensures Balanced(start, Book(b, row))
  {
    var b' := Book(b, row);
    if b' != b {
      assert b'.rows[..|b'.rows| - 1] == b.rows;
      assert forall i :: 0 <= i < |b.rows| ==> b'.rows[i] == b.rows[i];
      assert forall i :: 0 <= i < |b.rows| ==> b.rows[i].txId != row.txId;
    }
  }

  lemma {:induction false} TakeAllBalances(start: map<string, int>, s: Billing, steps: seq<Step>)
    requires Balanced(start, s.books)
    ensures Balanced(start, TakeAll(s, steps).books)
    decreases |steps|
  {
    if steps != [] {
      match steps[0] {
        case Begin(t) =>
        case Charge(i, txId, cost) =>
          if i < |s.flights| {
            BookBalances(start, s.books, Row(s.flights[i], txId, Expense, -cost));
          }
        case Lose(i) =>
        case Pay(row) => BookBalances(start, s.books, row);
      }
      TakeAllBalances(start, Take(s, steps[0]), steps[1..]);
    }
  }

  /**
   * After any run, every balance is its starting balance plus the amounts recorded
   * for that tenant, expenses and refunds never raise it, recharges and gifts
   * never lower it, and booking an external transaction a second time changes nothing.
   */
  lemma Conservation(start: map<string, int>, steps: seq<Step>, again: Row)
    ensures var b := TakeAll(Billing(Books(start, []), []), steps).books;
            && Balanced(start, b)
            && (forall row :: row in b.rows && (row.kind == Expense || row.kind == Refund) ==> row.amount <= 0)
            && (forall row :: row in b.rows && (row.kind == Recharge || row.kind == Gift) ==> row.amount >= 0)
            && (Recorded(b.rows, again.txId) ==> Book(b, again) == b)
  {
    TakeAllBalances(start, Billing(Books(start, []), []), steps);
  }

  // ----------------------------------------------------------------- overdraft

  function Count(q: seq<string>, t: string): nat {
    if q == [] then 0 else (if q[0] == t then 1 else 0) + Count(q[1..], t)
  }

  lemma {:induction false} CountConcat(p: seq<string>, q: seq<string>, t: string)
    ensures Count(p + q, t) == Count(p, t) + Count(q, t)
  {
    if p == [] {
      assert p + q == q;
    } else {
      assert (p + q)[1..] == p[1..] + q;
      CountConcat(p[1..], q, t);
    }
  }

  lemma CountWithout(q: seq<string>, i: nat, t: string)
    requires i < |q|
    ensures Count(Without(q, i), t) == Count(q, t) - if q[i] == t then 1 else 0
  {
    assert q == q[..i] + q[i..];
    CountConcat(q[..i], q[i..], t);
    CountConcat(q[..i], q[i + 1..], t);
  }

  /** All along the run at most `n` completions of the tenant are in flight, none costs more than `c`, and nothing is refunded. */
  ghost predicate Bounded(s: Billing, steps: seq<Step>, t: string, n: nat, c: nat)
    decreases |steps|
  {
    && Count(s.flights, t) <= n
    && (steps != [] ==>
          && (steps[0].Charge? ==> steps[0].cost <= c)
          && (steps[0].Pay? ==> steps[0].row.kind == Recharge || steps[0].row.kind == Gift)
          && Bounded(Take(s, steps[0]), steps[1..], t, n, c))
  }

  function Floor(n: nat, c: nat): int {
    if n * c == 0 then 0 else 1 - n * c
  }

  /** The balance covers, down to the floor, what the completions in flight may still cost. */
  ghost predicate Covered(s: Billing, t: string, n: nat, c: nat) {
    t in s.books.balances && s.books.balances[t] - Count(s.flights, t) * c >= Floor(n, c)
  }

  lemma MulMonotone(a: nat, b: nat, c: nat)
    requires a <= b
    ensures a * c <= b * c
  {}

  /** A check that succeeds leaves room for one more charge. */
  lemma RoomForOneMore(balance: int, k: nat, n: nat, c: nat)
    requires balance >= 1 && k <= n
    ensures balance - k * c >= Floor(n, c)
  {
    MulMonotone(k, n, c);
    if n * c == 0 {
      assert k * c == 0;
    }
  }

  /** A completion that lands, charged or not, leaves the rest covered. */
  lemma Landing(balance: int, cost: int, k: nat, n: nat, c: nat)
    requires balance - k * c >= Floor(n, c) && k > 0 && cost <= c
    ensures balance - cost - (k - 1) * c >= Floor(n, c)
  {
    assert k * c == (k - 1) * c + c;
  }

  lemma TakeCovers(s: Billing, step: Step, t: string, n: nat, c: nat)
    requires Covered(s, t, n, c) && Count(Take(s, step).flights, t) <= n
    requires step.Charge? ==> step.cost <= c
    requires step.Pay? ==> step.row.kind == Recharge || step.row.kind == Gift
    ensures Covered(Take(s, step), t, n, c)
  {
    var k := Count(s.flights, t);
    var balance := s.books.balances[t];
    match step {
      case Begin(x) =>
        CountConcat(s.flights, [x], t);
        if x == t && balance > 0 {
          RoomForOneMore(balance, k + 1, n, c);
        }
      case Charge(i, txId, cost) =>
        if i < |s.flights| {
          CountWithout(s.flights, i, t);
          if s.flights[i] == t {
            Landing(balance, cost, k, n, c);
            Landing(balance, 0, k, n, c);
          }
        }
      case Lose(i) =>
        if i < |s.flights| {
          CountWithout(s.flights, i, t);
          if s.flights[i] == t {
            Landing(balance, 0, k, n, c);
          }
        }
      case Pay(row) =>
    }
  }

  lemma {:induction false} TakeAllCovers(s: Billing, steps: seq<Step>, t: string, n: nat, c: nat)
    requires Covered(s, t, n, c) && Bounded(s, steps, t, n, c)
    ensures Covered(TakeAll(s, steps), t, n, c)
    decreases |steps|
  {
    if steps != [] {
      TakeCovers(s, steps[0], t, n, c);
      TakeAllCovers(Take(s, steps[0]), steps[1..], t, n, c);
    }
  }

  /**
   * Over all interleavings of checks, completions and later charges: with at most
   * `n` completions of a tenant in flight, each charged at most `c`, no refunds
   * and a start that is not negative, the balance stays above -n * c, and is never
   * negative when no completion can cost anything.
   */
  lemma OverdraftBound(start: map<string, int>, steps: seq<Step>, t: string, n: nat, c: nat)
    requires t in start && start[t] >= 0
    requires Bounded(Billing(Books(start, []), []), steps, t, n, c)
    ensures var b := TakeAll(Billing(Books(start, []), []), steps).books.balances;
            t in b && (if n * c == 0 then b[t] >= 0 else b[t] > -(n * c))
  {
    var s := Billing(Books(start, []), []);
    assert Floor(n, c) <= 0;
    TakeAllCovers(s, steps, t, n, c);
    var s' := TakeAll(s, steps);
    assert Count(s'.flights, t) * c >= 0;
  }

  /** `n` checks in a row. */
  function Begins(t: string, n: nat): seq<Step> {
    if n == 0 then [] else [Begin(t)] + Begins(t, n - 1)
  }

  /** `n` charges of `c`, each with its own external id. */
  function Charges(n: nat, c: nat): seq<Step> {
    if n == 0 then [] else [Charge(0, seq(n, i => 'x'), c)] + Charges(n - 1, c)
  }

  lemma {:induction false} TakeAllConcat(s: Billing, p: seq<Step>, q: seq<Step>)
    ensures TakeAll(s, p + q) == TakeAll(TakeAll(s, p), q)
    decreases |p|
  {
    if p == [] {
      assert p + q == q;
    } else {
      assert (p + q)[1..] == p[1..] + q;
      TakeAllConcat(Take(s, p[0]), p[1..], q);
    }
  }

  lemma {:induction false} BeginsFly(s: Billing, t: string, n: nat)
    requires t in s.books.balances && s.books.balances[t] > 0
    ensures var s' := TakeAll(s, Begins(t, n));
            s'.books == s.books && s'.flights == s.flights + seq(n, i => t)
    decreases n
  {
    if n > 0 {
      BeginsFly(Take(s, Begin(t)), t, n - 1);
      assert Begins(t, n)[1..] == Begins(t, n - 1);
      assert s.flights + [t] + seq(n - 1, i => t) == s.flights + seq(n, i => t);
    }
  }

  /** One charge of `c` under an external id of its own. */
  lemma FirstLands(s: Billing, t: string, n: nat, c: nat)
    requires n > 0 && t in s.books.balances && c > 0 && s.flights == seq(n, i => t)
    requires forall i :: 0 <= i < |s.books.rows| ==> |s.books.rows[i].txId| > n
    ensures var s1 := Take(s, Charges(n, c)[0]);
            && s1.flights == seq(n - 1, i => t)
            && t in s1.books.balances && s1.books.balances[t] == s.books.balances[t] - c
            && forall i :: 0 <= i < |s1.books.rows| ==> |s1.books.rows[i].txId| > n - 1
  {
    assert Without(s.flights, 0) == seq(n - 1, i => t);
    assert |seq(n, i => 'x')| == n;
  }

  lemma OneMoreCharge(n: nat, c: nat)
    requires n > 0
    ensures n * c == (n - 1) * c + c
  {}

  lemma {:induction false} ChargesLand(s: Billing, t: string, n: nat, c: nat)
    requires t in s.books.balances && c > 0 && s.flights == seq(n, i => t)
    requires forall i :: 0 <= i < |s.books.rows| ==> |s.books.rows[i].txId| > n
    ensures var s' := TakeAll(s, Charges(n, c));
            t in s'.books.balances && s'.books.balances[t] == s.books.balances[t] - n * c
    decreases n
  {
    if n > 0 {
      var steps := Charges(n, c);
      var s1 := Take(s, steps[0]);
      assert steps[1..] == Charges(n - 1, c);
      assert TakeAll(s, steps) == TakeAll(s1, steps[1..]);
      FirstLands(s, t, n, c);
      ChargesLand(s1, t, n - 1, c);
      OneMoreCharge(n, c);
    }
  }

  /** The bound is reached: a tenant with a balance of one, `n` checks, then `n` charges of `c`. */
  lemma OverdraftBoundIsTight(t: string, n: nat, c: nat)
    requires n > 0 && c > 0
    ensures var s := TakeAll(Billing(Books(map[t := 1], []), []), Begins(t, n) + Charges(n, c));
            t in s.books.balances && s.books.balances[t] == 1 - n * c
  {
    var s := Billing(Books(map[t := 1], []), []);
    TakeAllConcat(s, Begins(t, n), Charges(n, c));
    BeginsFly(s, t, n);
    assert [] + seq(n, i => t) == seq(n, i => t);
    ChargesLand(TakeAll(s, Begins(t, n)), t, n, c);
  }

  /** A refund is booked as a negative amount, so it overdraws without any completion. */
  lemma RefundsOverdraw(t: string, amount: int)
    requires amount > 0
    ensures var s := TakeAll(Billing(Books(map[t := 0], []), []), [Pay(Row(t, "refund", Refund, -amount))]);
            t in s.books.balances && s.books.balances[t] == -amount
  {
    var s := Billing(Books(map[t := 0], []), []);
    var step := Pay(Row(t, "refund", Refund, -amount));
    assert [step][1..] == [];
    assert TakeAll(s, [step]) == TakeAll(Take(s, step), []);
  }
}
