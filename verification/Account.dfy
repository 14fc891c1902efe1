// The bank account of examples/minimal/domain/account: rules, recorded events and 64-bit cents.

module Account {
  import opened Base

  const TWO63 := 0x8000_0000_0000_0000
  const TWO64 := 0x1_0000_0000_0000_0000

  type Int64 = x: int | -TWO63 <= x < TWO63

  predicate Fits(x: int) {
    -TWO63 <= x < TWO63
  }

  /** Arithmetic wraps around. */
  function Wrap(x: int): (r: Int64)
    ensures Fits(x) <==> r == x
  {
    (x + TWO63) % TWO64 - TWO63
  }

  lemma WrapAdds(x: int, d: int)
    ensures Wrap(Wrap(x) + d) == Wrap(x + d)
  {
  }

  datatype Status = Open | Frozen | Closed

  datatype Event =
    | AccountOpened(version: int, deposit: Int64)
    | OverdraftLimitChanged(version: int, limit: Int64)
    | MoneyWithdrawn(version: int, amount: Int64, balanceAfter: Int64)
    | MoneyDeposited(version: int, amount: Int64, balanceAfter: Int64)
    | AccountFrozen(version: int, reason: string)
    | AccountClosed(version: int)

  datatype State = State(status: Status, balance: Int64, overdraft: Int64, version: int, events: seq<Event>)

  datatype Command =
    | SetOverdraftLimit(limit: Int64)
    | Withdraw(amount: Int64)
    | Deposit(amount: Int64)
    | Freeze(reason: string)
    | Close

  datatype Reply = Done | OpeningDepositNegative | OverdraftNegative | IsFrozen | IsClosed | AmountNotPositive
                 | OverdraftExceeded | OnlyOpenCanFreeze | ReasonRequired | AlreadyClosed

  function Opened(deposit: Int64): Option<State> {
    if deposit < 0 then None else Some(State(Open, deposit, 0, 1, [AccountOpened(1, deposit)]))
  }

  /** Bumps the version, then records the event under it. */
  function Recorded(s: State, event: Event): State {
    s.(version := s.version + 1, events := s.events + [event])
  }

  function Step(s: State, c: Command): (State, Reply) {
    match c
    case SetOverdraftLimit(limit) =>
      if limit < 0 then (s, OverdraftNegative)
      else (Recorded(s.(overdraft := limit), OverdraftLimitChanged(s.version + 1, limit)), Done)
    case Withdraw(amount) =>
      if s.status == Frozen then (s, IsFrozen)
      else if s.status == Closed then (s, IsClosed)
      else if amount <= 0 then (s, AmountNotPositive)
      else if Wrap(s.balance - amount) < Wrap(0 - s.overdraft) then (s, OverdraftExceeded)
      else
        var after := Wrap(s.balance - amount);
        (Recorded(s.(balance := after), MoneyWithdrawn(s.version + 1, amount, after)), Done)
    case Deposit(amount) =>
      if s.status == Closed then (s, IsClosed)
      else if amount <= 0 then (s, AmountNotPositive)
      else
        var after := Wrap(s.balance + amount);
        (Recorded(s.(balance := after), MoneyDeposited(s.version + 1, amount, after)), Done)
    case Freeze(reason) =>
      if s.status != Open then (s, OnlyOpenCanFreeze)
      else if reason == "" then (s, ReasonRequired)
      else (Recorded(s.(status := Frozen), AccountFrozen(s.version + 1, reason)), Done)
    case Close =>
      if s.status == Closed then (s, AlreadyClosed)
      else (Recorded(s.(status := Closed), AccountClosed(s.version + 1)), Done)
  }

  datatype Run = Run(states: seq<State>, commands: seq<Command>)

  ghost predicate IsRun(r: Run) {
    && |r.states| == |r.commands| + 1
    && r.states[0].events != [] && r.states[0].events[0].AccountOpened?
    && Opened(r.states[0].events[0].deposit) == Some(r.states[0])
    && (forall i :: 0 <= i < |r.commands| ==> r.states[i + 1] == Step(r.states[i], r.commands[i]).0)
  }

  // ----- what the recorded events say, in exact arithmetic -----

  function Amount(e: Event): int {
    match e
    case AccountOpened(_, deposit) => deposit
    case MoneyDeposited(_, amount, _) => amount
    case MoneyWithdrawn(_, amount, _) => 0 - amount
    case _ => 0
  }

  /** Opening deposit plus deposits minus withdrawals. */
  function Ledger(events: seq<Event>): int {
    if events == [] then 0 else Ledger(events[..|events| - 1]) + Amount(events[|events| - 1])
  }

  /** The largest overdraft limit ever set. */
  function LargestLimit(events: seq<Event>): (l: int)
    ensures 0 <= l < TWO63
  {
    if events == [] then 0
    else
      var l, e := LargestLimit(events[..|events| - 1]), events[|events| - 1];
      if e.OverdraftLimitChanged? && e.limit > l then e.limit else l
  }

  /** The limit in force: the one set last, or none. */
  function LastLimit(events: seq<Event>): int {
    if events == [] then 0
    else
      var e := events[|events| - 1];
      if e.OverdraftLimitChanged? then e.limit else LastLimit(events[..|events| - 1])
  }

  /** No recorded deposit wrapped around: each balance before one can be told from the balance after it. */
  ghost predicate DepositsFit(events: seq<Event>) {
    forall i :: 0 <= i < |events| && events[i].MoneyDeposited? ==> Fits(events[i].balanceAfter - events[i].amount)
  }

  ghost predicate HasClosed(events: seq<Event>) {
    exists i :: 0 <= i < |events| && events[i].AccountClosed?
  }

  ghost predicate HasFrozen(events: seq<Event>) {
    exists i :: 0 <= i < |events| && events[i].AccountFrozen?
  }

  // ----- the invariant -----

  /** Event i has the next version, and its BalanceAfter is the running balance. */
  ghost predicate WellRecorded(events: seq<Event>, i: int)
    requires 0 <= i < |events|
  {
    && events[i].version == i + 1
    && (events[i].AccountOpened? <==> i == 0)
    && (events[i].MoneyWithdrawn? || events[i].MoneyDeposited? ==>
          events[i].amount > 0 && events[i].balanceAfter == Wrap(Ledger(events[..i + 1])))
  }

  ghost predicate MoneyBooked(s: State) {
    && s.version == |s.events| > 0
    && s.balance == Wrap(Ledger(s.events))
    && (forall i :: 0 <= i < |s.events| ==> WellRecorded(s.events, i))
  }

  ghost predicate StatusBooked(s: State) {
    && (s.status == Closed <==> HasClosed(s.events))
    && (s.status == Frozen <==> HasFrozen(s.events) && !HasClosed(s.events))
    && s.overdraft == LastLimit(s.events) && 0 <= s.overdraft <= LargestLimit(s.events)
  }

  ghost predicate Booked(s: State) {
    MoneyBooked(s) && StatusBooked(s)
  }

  /** The debt is covered by the largest limit ever set. */
  ghost predicate Covered(s: State) {
    s.balance >= -LargestLimit(s.events)
  }

  lemma FoldsGrow(events: seq<Event>, e: Event)
    ensures Ledger(events + [e]) == Ledger(events) + Amount(e)
    ensures LargestLimit(events + [e])
            == if e.OverdraftLimitChanged? && e.limit > LargestLimit(events) then e.limit else LargestLimit(events)
    ensures LastLimit(events + [e]) == if e.OverdraftLimitChanged? then e.limit else LastLimit(events)
    ensures HasClosed(events + [e]) <==> HasClosed(events) || e.AccountClosed?
    ensures HasFrozen(events + [e]) <==> HasFrozen(events) || e.AccountFrozen?
  {
    var grown := events + [e];
    assert grown[..|events|] == events && grown[|events|] == e;
    assert forall i :: 0 <= i < |events| ==> grown[i] == events[i];
  }

  lemma RecordsGrow(events: seq<Event>, e: Event)
    requires forall i :: 0 <= i < |events| ==> WellRecorded(events, i)
    requires events != [] && e.version == |events| + 1 && !e.AccountOpened?
    requires e.MoneyWithdrawn? || e.MoneyDeposited? ==>
               e.amount > 0 && e.balanceAfter == Wrap(Ledger(events) + Amount(e))
    ensures forall i :: 0 <= i < |events| + 1 ==> WellRecorded(events + [e], i)
  {
    var grown := events + [e];
    FoldsGrow(events, e);
    forall i | 0 <= i < |grown|
      ensures WellRecorded(grown, i)
    {
      if i < |events| {
        assert WellRecorded(events, i);
        assert grown[..i + 1] == events[..i + 1];
      } else {
        assert grown[..i + 1] == grown;
      }
    }
  }

  /** An accepted command records one event that says by how much the balance moved. */
  lemma StepRecords(s: State, c: Command)
    requires s.version == |s.events|
    ensures var t := Step(s, c).0;
            t == s ||
            (&& |t.events| == |s.events| + 1
             && var e := t.events[|s.events|];
             && t.events == s.events + [e] && t.version == s.version + 1
             && e.version == |s.events| + 1 && !e.AccountOpened?
             && t.balance == Wrap(s.balance + Amount(e))
             && (e.MoneyWithdrawn? || e.MoneyDeposited? ==> e.amount > 0 && e.balanceAfter == t.balance))
  {
  }

  lemma StepKeepsMoney(s: State, c: Command)
    requires MoneyBooked(s)
    ensures MoneyBooked(Step(s, c).0)
  {
    StepRecords(s, c);
    var t := Step(s, c).0;
    if t != s {
      var e := t.events[|s.events|];
      WrapAdds(Ledger(s.events), Amount(e));
      FoldsGrow(s.events, e);
      RecordsGrow(s.events, e);
    }
  }

  lemma StepKeepsStatus(s: State, c: Command)
    requires StatusBooked(s)
    ensures StatusBooked(Step(s, c).0)
  {
    var t := Step(s, c).0;
    if t != s {
      FoldsGrow(s.events, t.events[|s.events|]);
      assert t.events == s.events + [t.events[|s.events|]];
    }
  }

  lemma StepKeepsBooked(s: State, c: Command)
    requires Booked(s)
    ensures Booked(Step(s, c).0)
  {
    StepKeepsMoney(s, c);
    StepKeepsStatus(s, c);
  }

  lemma StepKeepsCovered(s: State, c: Command)
    requires Booked(s) && (DepositsFit(s.events) ==> Covered(s))
    ensures DepositsFit(Step(s, c).0.events) ==> Covered(Step(s, c).0)
  {
    var t := Step(s, c).0;
    if t != s && DepositsFit(t.events) {
      var e := t.events[|s.events|];
      assert t.events == s.events + [e];
      assert forall i :: 0 <= i < |s.events| ==> t.events[i] == s.events[i];
      FoldsGrow(s.events, e);
    }
  }

  lemma OpenedIsBooked(s: State, deposit: Int64)
    requires Opened(deposit) == Some(s)
    ensures Booked(s) && Covered(s)
  {
    var e := AccountOpened(1, deposit);
    FoldsGrow([], e);
    assert s.events == [] + [e] && s.events[..1] == s.events;
    assert Ledger(s.events) == deposit;
    assert WellRecorded(s.events, 0);
  }

  lemma StepKeepsAll(s: State, c: Command)
    requires Sound(s)
    ensures Sound(Step(s, c).0)
  {
    StepKeepsBooked(s, c);
    StepKeepsCovered(s, c);
  }

  ghost predicate Sound(s: State) {
    Booked(s) && (DepositsFit(s.events) ==> Covered(s))
  }

  lemma {:induction false} BookedAlways(r: Run, n: nat)
    requires IsRun(r) && n < |r.states|
    ensures Sound(r.states[n])
  {
    if n == 0 {
      OpenedIsBooked(r.states[0], r.states[0].events[0].deposit);
    } else {
      BookedAlways(r, n - 1);
      StepKeepsAll(r.states[n - 1], r.commands[n - 1]);
      assert r.states[n] == Step(r.states[n - 1], r.commands[n - 1]).0;
    }
  }

  // ----- main results -----

  /**
   * On every run the balance is the opening deposit plus recorded deposits minus recorded
   * withdrawals, in 64-bit arithmetic, and so exactly that sum precisely when the sum fits; each
   * BalanceAfter is the running balance and event versions are 1..n without gaps.
   */
  lemma BalanceIsLedger(r: Run, n: nat)
    requires IsRun(r) && n < |r.states|
    ensures var s := r.states[n];
            && s.balance == Wrap(Ledger(s.events))
            && (s.balance == Ledger(s.events) <==> Fits(Ledger(s.events)))
            && s.version == |s.events|
            && (forall i :: 0 <= i < |s.events| ==> WellRecorded(s.events, i))
  {
    BookedAlways(r, n);
  }

  /** On every run status and limit are what the recorded events say, and each limit on record is one that was asked for. */
  lemma StatusIsRecorded(r: Run, n: nat)
    requires IsRun(r) && n < |r.states|
    ensures var s := r.states[n];
            && s.overdraft == LastLimit(s.events)
            && (s.status == Closed <==> HasClosed(s.events))
            && (s.status == Frozen <==> HasFrozen(s.events) && !HasClosed(s.events))
  {
    BookedAlways(r, n);
  }

  /** As long as no deposit wrapped around, the balance never drops below minus the largest overdraft limit ever set. */
  lemma DebtIsCovered(r: Run, n: nat)
    requires IsRun(r) && n < |r.states| && DepositsFit(r.states[n].events)
    ensures r.states[n].balance >= -LargestLimit(r.states[n].events)
  {
    BookedAlways(r, n);
  }

  /**
   * When a deposit does wrap: an accepted deposit raises the balance exactly when the sum fits 64
   * bits, and a covered account stays covered exactly when the sum fits or what is left of it after
   * wrapping is still within the largest limit. All other commands keep a covered account covered.
   */
  lemma CoverIsLostOnlyByWrapping(r: Run, n: nat, c: Command)
    requires IsRun(r) && n < |r.states| && Covered(r.states[n]) && Step(r.states[n], c).1 == Done
    ensures !c.Deposit? ==> Covered(Step(r.states[n], c).0)
    ensures c.Deposit? ==>
              var s, t := r.states[n], Step(r.states[n], c).0;
              && (t.balance > s.balance <==> Fits(s.balance + c.amount))
              && (Covered(t) <==> Fits(s.balance + c.amount) || s.balance + c.amount - TWO64 >= -LargestLimit(s.events))
  {
    BookedAlways(r, n);
    var s, t := r.states[n], Step(r.states[n], c).0;
    var e := t.events[|s.events|];
    assert t.events == s.events + [e];
    FoldsGrow(s.events, e);
  }

  /** It does happen: a cent on top of the largest balance leaves the largest debt, with no overdraft ever allowed. */
  lemma DepositCanWrap() returns (r: Run)
    ensures IsRun(r) && LargestLimit(r.states[|r.states| - 1].events) == 0
    ensures r.states[|r.states| - 1].balance == -TWO63
  {
    var e0, e1 := AccountOpened(1, TWO63 - 1), MoneyDeposited(2, 1, -TWO63);
    var s0, s1 := State(Open, TWO63 - 1, 0, 1, [e0]), State(Open, -TWO63, 0, 2, [e0, e1]);
    assert Step(s0, Deposit(1)).0 == s1;
    r := Run([s0, s1], [Deposit(1)]);
    FoldsGrow([], e0);
    FoldsGrow([] + [e0], e1);
    assert [] + [e0] + [e1] == [e0, e1];
  }

  /** A rejected command changes nothing; an accepted one records exactly one event and keeps all earlier ones. */
  lemma AllOrNothing(s: State, c: Command)
    ensures Step(s, c).1 != Done ==> Step(s, c).0 == s
    ensures Step(s, c).1 == Done ==>
              Step(s, c).0.version == s.version + 1 && |Step(s, c).0.events| == |s.events| + 1 && s.events <= Step(s, c).0.events
  {
  }

  /** Each refusal has its one reason, in the order in which the code looks. */
  lemma RefusalsAreExact(s: State, c: Command)
    ensures var reply := Step(s, c).1;
            && (reply == OverdraftNegative <==> c.SetOverdraftLimit? && c.limit < 0)
            && (reply == IsFrozen <==> c.Withdraw? && s.status == Frozen)
            && (reply == IsClosed <==> (c.Withdraw? || c.Deposit?) && s.status == Closed)
            && (reply == AmountNotPositive <==>
                  ((c.Withdraw? && s.status == Open) || (c.Deposit? && s.status != Closed)) && c.amount <= 0)
            && (reply == OnlyOpenCanFreeze <==> c.Freeze? && s.status != Open)
            && (reply == ReasonRequired <==> c.Freeze? && s.status == Open && c.reason == "")
            && (reply == AlreadyClosed <==> c.Close? && s.status == Closed)
            && (reply == OverdraftExceeded ==> c.Withdraw? && s.status == Open && c.amount > 0)
            && reply != OpeningDepositNegative
  {
  }

  /** The event of an accepted command says exactly what was asked for and what became of it. */
  lemma AcceptedIsRecorded(s: State, c: Command)
    requires Step(s, c).1 == Done
    ensures var t := Step(s, c).0;
            && t.events != []
            && (match t.events[|t.events| - 1]
                case OverdraftLimitChanged(v, limit) => v == t.version && c == SetOverdraftLimit(limit) && t.overdraft == limit
                case MoneyWithdrawn(v, amount, after) => v == t.version && c == Withdraw(amount) && t.balance == after
                case MoneyDeposited(v, amount, after) => v == t.version && c == Deposit(amount) && t.balance == after
                case AccountFrozen(v, reason) => v == t.version && c == Freeze(reason) && t.status == Frozen
                case AccountClosed(v) => v == t.version && c == Close && t.status == Closed
                case _ => false)
  {
  }

  /** Closed is final: no money moves any more, and all that is still recorded is changes of the limit. */
  lemma {:induction false} ClosedIsFinal(r: Run, i: nat, j: nat)
    requires IsRun(r) && i <= j < |r.states| && r.states[i].status == Closed
    ensures r.states[j].status == Closed && r.states[j].balance == r.states[i].balance
    ensures r.states[i].events <= r.states[j].events
    ensures forall k :: |r.states[i].events| <= k < |r.states[j].events| ==> r.states[j].events[k].OverdraftLimitChanged?
    decreases j - i
  {
    if i < j {
      ClosedIsFinal(r, i, j - 1);
      assert r.states[j] == Step(r.states[j - 1], r.commands[j - 1]).0;
    }
  }

  /** What a closed account still accepts: a new limit, and nothing else. */
  lemma ClosedAcceptsOnlyLimits(r: Run, n: nat, c: Command)
    requires IsRun(r) && n < |r.states| && HasClosed(r.states[n].events)
    ensures Step(r.states[n], c).1 == Done <==> c.SetOverdraftLimit? && c.limit >= 0
  {
    BookedAlways(r, n);
  }

  /** What a frozen account still accepts: a new limit, a deposit, and being closed. */
  lemma FrozenPaysNothing(r: Run, n: nat, c: Command)
    requires IsRun(r) && n < |r.states| && HasFrozen(r.states[n].events) && !HasClosed(r.states[n].events)
    ensures Step(r.states[n], c).1 == Done
            <==> (c.SetOverdraftLimit? && c.limit >= 0) || (c.Deposit? && c.amount > 0) || c.Close?
  {
    BookedAlways(r, n);
  }

  /** Frozen is never left but for closed, and no money is paid out any more. */
  lemma {:induction false} FrozenIsLasting(r: Run, i: nat, j: nat)
    requires IsRun(r) && i <= j < |r.states| && r.states[i].status == Frozen
    ensures r.states[j].status != Open && r.states[i].events <= r.states[j].events
    ensures forall k :: |r.states[i].events| <= k < |r.states[j].events| ==>
              !r.states[j].events[k].MoneyWithdrawn? && !r.states[j].events[k].AccountFrozen?
    decreases j - i
  {
    if i < j {
      FrozenIsLasting(r, i, j - 1);
      assert r.states[j] == Step(r.states[j - 1], r.commands[j - 1]).0;
    }
  }

  /** Closed is not final for the limit: whatever the limit, there is a run that sets it on a closed account. */
  lemma ClosedAccountChangesLimit(limit: Int64) returns (r: Run)
    requires limit >= 0
    ensures IsRun(r) && |r.states| == 3 && r.states[1].status == Closed && r.states[1].overdraft == 0
    ensures r.states[2].status == Closed && r.states[2].overdraft == limit && r.states[2].version == r.states[1].version + 1
  {
    var s0 := State(Open, 0, 0, 1, [AccountOpened(1, 0)]);
    var s1 := Step(s0, Close).0;
    r := Run([s0, s1, Step(s1, SetOverdraftLimit(limit)).0], [Close, SetOverdraftLimit(limit)]);
  }

  /** Right after an accepted withdrawal the debt is within the limit then in force. */
  lemma WithdrawRespectsLimit(r: Run, n: nat, amount: Int64)
    requires IsRun(r) && n < |r.states| && Step(r.states[n], Withdraw(amount)).1 == Done
    ensures Step(r.states[n], Withdraw(amount)).0.balance >= 0 - r.states[n].overdraft
  {
    BookedAlways(r, n);
  }

  /**
   * The overdraft rule is decided on a difference that may wrap around. A positive withdrawal from
   * an open account is decided as the rule says exactly when that difference fits 64 bits; when it
   * does not, the withdrawal is accepted although it exceeds every limit.
   */
  lemma OverdraftRuleHoldsUnlessItWraps(r: Run, n: nat, amount: Int64)
    requires IsRun(r) && n < |r.states| && r.states[n].status == Open && amount > 0
    ensures var s := r.states[n];
            (Step(s, Withdraw(amount)).1 == Done <==> s.balance - amount >= 0 - s.overdraft) <==> Fits(s.balance - amount)
  {
    BookedAlways(r, n);
  }

  /** It does happen: with a debt of two cents, withdrawing the largest amount is accepted and leaves a fortune. */
  lemma WithdrawalCanWrap() returns (r: Run)
    ensures IsRun(r) && Ledger(r.states[|r.states| - 1].events) < -LargestLimit(r.states[|r.states| - 1].events)
    ensures r.states[|r.states| - 1].balance == TWO63 - 1
  {
    var e0, e1, e2, e3 := AccountOpened(1, 0), OverdraftLimitChanged(2, 2), MoneyWithdrawn(3, 2, -2),
        MoneyWithdrawn(4, TWO63 - 1, TWO63 - 1);
    var s0 := State(Open, 0, 0, 1, [e0]);
    var s1 := State(Open, 0, 2, 2, [e0, e1]);
    var s2 := State(Open, -2, 2, 3, [e0, e1, e2]);
    var s3 := State(Open, TWO63 - 1, 2, 4, [e0, e1, e2, e3]);
    assert Step(s0, SetOverdraftLimit(2)).0 == s1;
    assert Step(s1, Withdraw(2)).0 == s2;
    assert Step(s2, Withdraw(TWO63 - 1)).0 == s3;
    r := Run([s0, s1, s2, s3], [SetOverdraftLimit(2), Withdraw(2), Withdraw(TWO63 - 1)]);
    WrappedLedger(e0, e1, e2, e3);
  }

  lemma LedgerGrows(events: seq<Event>, e: Event)
    ensures Ledger(events + [e]) == Ledger(events) + Amount(e)
  {
    FoldsGrow(events, e);
  }

  lemma WrappedLedger(e0: Event, e1: Event, e2: Event, e3: Event)
    requires Amount(e0) == 0 && Amount(e1) == 0 && Amount(e2) == -2 && Amount(e3) == 1 - TWO63
    ensures Ledger([e0, e1, e2, e3]) == -1 - TWO63
  {
    LedgerGrows([], e0);
    LedgerGrows([] + [e0], e1);
    LedgerGrows([] + [e0] + [e1], e2);
    LedgerGrows([] + [e0] + [e1] + [e2], e3);
    var events := [] + [e0] + [e1] + [e2] + [e3];
    assert events == [e0, e1, e2, e3];
  }

  // ----- the account as the code keeps it -----

  class BankAccount {
    var status: Status
    var balance: Int64
    var overdraft: Int64
    var version: int
    var events: seq<Event>

    ghost function View(): State
      reads this
    {
      State(status, balance, overdraft, version, events)
    }

    constructor (deposit: Int64)
      requires deposit >= 0
      ensures Some(View()) == Opened(deposit)
    {
      status, balance, overdraft := Open, deposit, 0;
      version, events := 1, [AccountOpened(1, deposit)];
    }

    method Record(event: Event)
      modifies this`events
      ensures events == old(events) + [event]
    {
      events := events + [event];
    }

    method SetOverdraftLimit(limit: Int64) returns (reply: Reply)
      modifies this
      ensures (View(), reply) == Step(old(View()), Command.SetOverdraftLimit(limit))
    {
      if limit < 0 {
        return OverdraftNegative;
      }
      overdraft := limit;
      version := version + 1;
      Record(OverdraftLimitChanged(version, limit));
      return Done;
    }

    method Withdraw(amount: Int64) returns (reply: Reply)
      modifies this
      ensures (View(), reply) == Step(old(View()), Command.Withdraw(amount))
    {
      if status == Frozen {
        return IsFrozen;
      }
      if status == Closed {
        return IsClosed;
      }
      if amount <= 0 {
        return AmountNotPositive;
      }
      if Wrap(balance - amount) < Wrap(0 - overdraft) {
        return OverdraftExceeded;
      }
      balance := Wrap(balance - amount);
      version := version + 1;
      Record(MoneyWithdrawn(version, amount, balance));
      return Done;
    }

    method Deposit(amount: Int64) returns (reply: Reply)
      modifies this
      ensures (View(), reply) == Step(old(View()), Command.Deposit(amount))
    {
      if status == Closed {
        return IsClosed;
      }
      if amount <= 0 {
        return AmountNotPositive;
      }
      balance := Wrap(balance + amount);
      version := version + 1;
      Record(MoneyDeposited(version, amount, balance));
      return Done;
    }

    method Freeze(reason: string) returns (reply: Reply)
      modifies this
      ensures (View(), reply) == Step(old(View()), Command.Freeze(reason))
    {
      if status != Open {
        return OnlyOpenCanFreeze;
      }
      if reason == "" {
        return ReasonRequired;
      }
      status := Frozen;
      version := version + 1;
      Record(AccountFrozen(version, reason));
      return Done;
    }

    method Close() returns (reply: Reply)
      modifies this
      ensures (View(), reply) == Step(old(View()), Command.Close)
    {
      if status == Closed {
        return AlreadyClosed;
      }
      status := Closed;
      version := version + 1;
      Record(AccountClosed(version));
      return Done;
    }
  }

  /** Opening with a negative deposit gives no account. */
  method OpenAccount(deposit: Int64) returns (account: BankAccount?, reply: Reply)
    ensures account == null <==> Opened(deposit) == None
    ensures account != null ==> fresh(account) && Some(account.View()) == Opened(deposit)
    ensures reply == if deposit < 0 then OpeningDepositNegative else Done
  {
    if deposit < 0 {
      return null, OpeningDepositNegative;
    }
    account := new BankAccount(deposit);
    reply := Done;
  }
}
