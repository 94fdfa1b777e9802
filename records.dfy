/**
 * The three loaded tables (users, subscriptions, transactions) and the
 * user-subscription join that several metrics start from. Amounts are
 * DECIMAL(10,2) values, held exactly as an integer number of cents.
 */
module Records {
  import opened Relational
  import opened Calendar

  /** A DECIMAL(10,2) amount in hundredths. */
  type Cents = int

  datatype User = User(userId: int, country: string, signupDate: Date, isAnonymous: bool)

  datatype Subscription = Subscription(
    subId: int,
    userId: int,
    planType: string,
    mrrAmount: Cents,
    status: string,
    startDate: Date)

  /** `errorCode` and `country` are the nullable columns (country is NULL for privacy gateways). */
  datatype Transaction = Transaction(
    txId: int,
    subId: int,
    gateway: string,
    currency: string,
    status: string,
    errorCode: Option<string>,
    txDate: Date,
    amount: Cents,
    country: Option<string>)

  function UserIdOf(u: User): int { u.userId }
  function SubIdOf(s: Subscription): int { s.subId }

  /** user_id is a key of users. */
  predicate UniqueUserIds(users: seq<User>) { UniqueBy(users, UserIdOf) }

  /** sub_id is a key of subscriptions. */
  predicate UniqueSubIds(subs: seq<Subscription>) { UniqueBy(subs, SubIdOf) }

  /** DATE_TRUNC('month', tx_date). */
  function TxMonth(t: Transaction): int { MonthIndex(t.txDate) }

  /** DATE_TRUNC('month', start_date). */
  function SubMonth(s: Subscription): int { MonthIndex(s.startDate) }

  function TxStatus(t: Transaction): string { t.status }
  function SubStatus(s: Subscription): string { s.status }
  function TxGateway(t: Transaction): string { t.gateway }

  /** COUNT(*) weight. */
  function TxOne(t: Transaction): int { 1 }
  function SubOne(s: Subscription): int { 1 }

  /** WHERE status = 'Success'. */
  predicate IsSuccessTx(t: Transaction) { t.status == "Success" }

  /** CASE WHEN status = 'Success' THEN 1 ELSE 0 END. */
  function SuccessWeight(t: Transaction): int { if t.status == "Success" then 1 else 0 }

  /** CASE WHEN status = 'Soft Decline' THEN 1 ELSE 0 END. */
  function SoftDeclineWeight(t: Transaction): int { if t.status == "Soft Decline" then 1 else 0 }

  /** CASE WHEN status = 'Hard Decline' THEN 1 ELSE 0 END. */
  function HardDeclineWeight(t: Transaction): int { if t.status == "Hard Decline" then 1 else 0 }

  /** SUM(amount) weight restricted to Success: CASE WHEN status = 'Success' THEN amount ELSE 0 END. */
  function SuccessAmount(t: Transaction): int { if t.status == "Success" then t.amount else 0 }

  function TxAmount(t: Transaction): int { t.amount }
  function MrrAmount(s: Subscription): int { s.mrrAmount }

  /** WHERE status = 'Active' on subscriptions. */
  predicate IsActiveSub(s: Subscription) { s.status == "Active" }

  /** An amount in cents as the number its DECIMAL(10,2) value reads as. */
  function Dollars(c: int): real { (c as real) / 100.0 }

  /** Dividing by the count and converting to currency units commute. */
  lemma DivideInCents(total: real, n: real)
    requires n > 0.0
    ensures (total / n) / 100.0 == (total / 100.0) / n
  {
  }

  /** A nullable amount in cents, read the same way. */
  function DollarsOrNull(c: Option<int>): (r: Option<real>)
    ensures r.None? <==> c.None?
    ensures r.Some? ==> r.value * 100.0 == c.value as real
  {
    match c
    case None => None
    case Some(v) => Some(Dollars(v))
  }

  function SuccessOrSoft(t: Transaction): int { SuccessWeight(t) + SoftDeclineWeight(t) }
  function DecisionWeight(t: Transaction): int { SuccessOrSoft(t) + HardDeclineWeight(t) }

  /** The three status labels of a transaction. */
  predicate KnownTxStatus(status: string)
  {
    status == "Success" || status == "Soft Decline" || status == "Hard Decline"
  }

  /**
   * Over any set of transactions, the Success, Soft Decline and Hard Decline
   * counts are non-negative and add up to at most the row count, exactly when
   * every status is one of the three labels.
   */
  lemma StatusCounts(g: seq<Transaction>)
    ensures 0 <= SumOf(g, SuccessWeight) && 0 <= SumOf(g, SoftDeclineWeight) && 0 <= SumOf(g, HardDeclineWeight)
    ensures SumOf(g, SuccessWeight) + SumOf(g, SoftDeclineWeight) + SumOf(g, HardDeclineWeight) <= |g|
    ensures (forall i :: 0 <= i < |g| ==> KnownTxStatus(g[i].status)) ==>
              SumOf(g, SuccessWeight) + SumOf(g, SoftDeclineWeight) + SumOf(g, HardDeclineWeight) == |g|
  {
    SumOfNonNegative(g, SuccessWeight);
    SumOfNonNegative(g, SoftDeclineWeight);
    SumOfNonNegative(g, HardDeclineWeight);
    SumOfAdd(g, SuccessWeight, SoftDeclineWeight, SuccessOrSoft);
    SumOfAdd(g, SuccessOrSoft, HardDeclineWeight, DecisionWeight);
    SumOfIndicator(g, DecisionWeight);
    if forall i :: 0 <= i < |g| ==> KnownTxStatus(g[i].status) {
      SumOfOnes(g, DecisionWeight);
    }
  }

  /** WHERE tx_date >= CURRENT_DATE - INTERVAL 'n days', with CURRENT_DATE = today. */
  function InLastDays(today: Date, n: int): Transaction -> bool
  {
    (t: Transaction) => WithinDays(t.txDate, today, n)
  }

  /** The transactions of the last n days. */
  function Recent(txs: seq<Transaction>, today: Date, n: int): seq<Transaction>
  {
    Where(txs, InLastDays(today, n))
  }

  // ---------------------------------------------------------------------------
  // STRING_AGG(DISTINCT error_code, ', ')

  /** The distinct non-NULL error codes of some rows. */
  function ErrorCodes(g: seq<Transaction>): set<string>
  {
    if g == [] then {}
    else (if g[0].errorCode.Some? then {g[0].errorCode.value} else {}) + ErrorCodes(g[1..])
  }

  /** STRING_AGG(DISTINCT error_code, ', '), as the set of codes it lists; NULL when there are none. */
  function CommonErrors(g: seq<Transaction>): Option<set<string>>
  {
    var codes := ErrorCodes(g);
    if codes == {} then None else Some(codes)
  }

  /** The codes are those of the rows that have one. */
  lemma {:induction false} ErrorCodesOf(g: seq<Transaction>, e: string)
    ensures e in ErrorCodes(g) <==> exists t :: t in g && t.errorCode == Some(e)
  {
    if g != [] {
      ErrorCodesOf(g[1..], e);
      assert forall t :: t in g <==> t == g[0] || t in g[1..];
    }
  }

  /**
   * common_errors is NULL exactly when no row of the group has an error code,
   * and otherwise lists each code that some row of the group has.
   */
  lemma CommonErrorsOf(g: seq<Transaction>)
    ensures CommonErrors(g).None? <==> forall t :: t in g ==> t.errorCode.None?
    ensures forall e :: e in ErrorCodes(g) <==> exists t :: t in g && t.errorCode == Some(e)
  {
    forall e ensures e in ErrorCodes(g) <==> exists t :: t in g && t.errorCode == Some(e) {
      ErrorCodesOf(g, e);
    }
    if !forall t :: t in g ==> t.errorCode.None? {
      var t :| t in g && t.errorCode.Some?;
      ErrorCodesOf(g, t.errorCode.value);
    }
  }

  /** WHERE start_date >= CURRENT_DATE - INTERVAL 'n months', with CURRENT_DATE = today. */
  function StartedWithin(today: Date, n: int): Subscription -> bool
  {
    (s: Subscription) => WithinMonths(s.startDate, today, n)
  }

  /**
   * GROUP BY gateway, country. The name `country` binds to the input column,
   * so the raw, nullable country is grouped on; a NULL country is a group of
   * its own.
   */
  datatype PairKey = PairKey(gateway: string, country: Option<string>)

  function PairOf(t: Transaction): PairKey { PairKey(t.gateway, t.country) }

  // ---------------------------------------------------------------------------
  // users JOIN subscriptions ON u.user_id = s.user_id

  /** One row of the join. */
  datatype UserSub = UserSub(user: User, sub: Subscription)

  function PairSubId(p: UserSub): int { p.sub.subId }
  function PairUserId(p: UserSub): int { p.user.userId }

  /** cohort_month: DATE_TRUNC('month', u.signup_date) of the owning user. */
  function CohortMonth(p: UserSub): int { MonthIndex(p.user.signupDate) }

  /** The subscriptions of `u`, in table order. */
  function JoinUser(u: User, subs: seq<Subscription>): (r: seq<UserSub>)
    ensures forall p :: p in r <==> p.user == u && p.sub in subs && p.sub.userId == u.userId
  {
    if subs == [] then []
    else
      assert forall s :: s in subs <==> s == subs[0] || s in subs[1..];
      (if subs[0].userId == u.userId then [UserSub(u, subs[0])] else []) + JoinUser(u, subs[1..])
  }

  /** The inner join on user_id. */
  function JoinUsersSubs(users: seq<User>, subs: seq<Subscription>): (r: seq<UserSub>)
    ensures forall p :: p in r <==> p.user in users && p.sub in subs && p.sub.userId == p.user.userId
  {
    if users == [] then []
    else
      assert forall u :: u in users <==> u == users[0] || u in users[1..];
      JoinUser(users[0], subs) + JoinUsersSubs(users[1..], subs)
  }

  /** Two different subscriptions have different sub_ids, when sub_id is a key. */
  lemma SubIdSeparates(subs: seq<Subscription>, a: Subscription, b: Subscription)
    requires UniqueSubIds(subs) && a in subs && b in subs
    ensures a != b ==> a.subId != b.subId
  {
    var i := SeqIndexOf(subs, a);
    var j := SeqIndexOf(subs, b);
    assert a != b ==> i != j;
    assert i < j ==> SubIdOf(subs[i]) != SubIdOf(subs[j]);
    assert j < i ==> SubIdOf(subs[j]) != SubIdOf(subs[i]);
  }

  lemma {:induction false} JoinUserUnique(u: User, subs: seq<Subscription>)
    requires UniqueSubIds(subs)
    ensures UniqueBy(JoinUser(u, subs), PairSubId)
  {
    if subs != [] {
      UniqueByTail(subs, SubIdOf);
      JoinUserUnique(u, subs[1..]);
      var head := if subs[0].userId == u.userId then [UserSub(u, subs[0])] else [];
      var rest := JoinUser(u, subs[1..]);
      forall i, j | 0 <= i < |head| && 0 <= j < |rest| ensures PairSubId(head[i]) != PairSubId(rest[j]) {
        assert rest[j] in rest;
        var p := SeqIndexOf(subs[1..], rest[j].sub);
        assert subs[1..][p] == subs[p + 1];
        assert SubIdOf(subs[0]) != SubIdOf(subs[p + 1]);
      }
      UniqueByAppend(head, rest, PairSubId);
    }
  }

  /**
   * With user_id a key of users and sub_id a key of subscriptions, every
   * subscription joins at most one user: sub_id stays a key of the join.
   */
  lemma {:induction false} JoinUnique(users: seq<User>, subs: seq<Subscription>)
    requires UniqueUserIds(users) && UniqueSubIds(subs)
    ensures UniqueBy(JoinUsersSubs(users, subs), PairSubId)
  {
    if users != [] {
      UniqueByTail(users, UserIdOf);
      JoinUnique(users[1..], subs);
      JoinUserUnique(users[0], subs);
      var a := JoinUser(users[0], subs);
      var b := JoinUsersSubs(users[1..], subs);
      forall i, j | 0 <= i < |a| && 0 <= j < |b| ensures PairSubId(a[i]) != PairSubId(b[j]) {
        assert a[i] in a && b[j] in b;
        var q := SeqIndexOf(users[1..], b[j].user);
        assert users[1..][q] == users[q + 1];
        assert UserIdOf(users[0]) != UserIdOf(users[q + 1]);
        assert a[i].sub != b[j].sub;
        SubIdSeparates(subs, a[i].sub, b[j].sub);
      }
      UniqueByAppend(a, b, PairSubId);
    }
  }
}
