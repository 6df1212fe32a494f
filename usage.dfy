/**
 * The usage aggregation of the dashboard's data hook (`fetchUsageData`):
 * a user's usage-log rows become this month's token and request totals, the
 * list of models used, and a newest-first billing history holding one record
 * per calendar month.
 */
module UsageAggregation {
  import opened Wrappers
  import opened Seqs
  import opened Sorting
  import opened Dates
  import opened JsStrings

  /** One row of the `usage_logs` table, joined with its model's internal name. */
  datatype UsageLog = UsageLog(
    userId: string,
    apiKeyId: string,
    model: Option<string>,  // `models?.internal_name`: absent when the join finds no model
    promptTokens: nat,
    completionTokens: nat,
    createdAt: CalendarDate)

  datatype BillingStatus = Paid | Pending | Failed

  type MonthNumber = m: int | 1 <= m <= 12 witness 1

  /** A calendar month: the grouping's key, printed by `MonthKey`. */
  datatype Month = Month(year: int, month: MonthNumber)

  /**
   * One month of the billing history. Its `id` is held as the month it names;
   * `RecordKey` prints it. The floating-point `amount` is not modelled.
   */
  datatype BillingRecord = BillingRecord(
    id: Month,
    date: CalendarDate,
    tokensUsed: nat,
    status: BillingStatus,
    periodStart: CalendarDate,
    periodEnd: CalendarDate)

  /** The figures the dashboard shows; the floating-point `costThisMonth` is not modelled. */
  datatype UsageData = UsageData(
    tokensThisMonth: nat,
    requestsThisMonth: nat,
    modelsUsed: seq<string>,
    billingHistory: seq<BillingRecord>)

  function LogTokens(log: UsageLog): nat
  {
    log.promptTokens + log.completionTokens
  }

  /** `logs.reduce((sum, log) => sum + log.prompt_tokens + log.completion_tokens, 0)`. */
  function TotalTokens(logs: seq<UsageLog>): (r: nat)
    ensures forall i :: 0 <= i < |logs| ==> LogTokens(logs[i]) <= r
    ensures r == 0 <==> forall i :: 0 <= i < |logs| ==> LogTokens(logs[i]) == 0
  {
    SumBounds(logs, LogTokens);
    Sum(logs, LogTokens)
  }

  // ---------------------------------------------------------------------------
  // Month keys

  /** The month number 1 to 12 as exactly two decimal digits. */
  function TwoDigits(month: int): string
    requires 1 <= month <= 12
  {
    [DigitChar(month / 10), DigitChar(month % 10)]
  }

  /**
   * The dictionary key of a month: the year in decimal, a `-`, then the month
   * number 1 to 12 as exactly two digits.
   */
  function MonthKey(year: int, month: int): (r: string)
    requires 1 <= month <= 12
    ensures |r| == |IntToDecimal(year)| + 3 && r[..|r| - 3] == IntToDecimal(year) && r[|r| - 3] == '-'
    ensures IsDigit(r[|r| - 2]) && IsDigit(r[|r| - 1])
    ensures (r[|r| - 2] as int - '0' as int) * 10 + (r[|r| - 1] as int - '0' as int) == month
  {
    IntToDecimal(year) + "-" + TwoDigits(month)
  }

  /** The two digits are the month's decimal form left-padded with `0` to width 2. */
  lemma MonthKeyFormat(year: int, month: int)
    requires 1 <= month <= 12
    ensures MonthKey(year, month) == IntToDecimal(year) + "-" + PadStart(NatToDecimal(month), 2, '0')
  {
    TwoDigitsPadded(month);
  }

  lemma TwoDigitsPadded(month: int)
    requires 1 <= month <= 12
    ensures TwoDigits(month) == PadStart(NatToDecimal(month), 2, '0')
  {
    var digits := NatToDecimal(month);
    if month < 10 {
      assert PadStart(digits, 2, '0') == ['0'] + digits;
    } else {
      assert digits == NatToDecimal(month / 10) + [DigitChar(month % 10)];
      assert PadStart(digits, 2, '0') == digits;
    }
  }

  /** Two months have the same key exactly when they are the same (year, month) pair. */
  lemma MonthKeyInjective(y1: int, m1: int, y2: int, m2: int)
    requires 1 <= m1 <= 12 && 1 <= m2 <= 12
    ensures MonthKey(y1, m1) == MonthKey(y2, m2) <==> y1 == y2 && m1 == m2
  {
    var k1, k2 := MonthKey(y1, m1), MonthKey(y2, m2);
    if k1 == k2 {
      assert |IntToDecimal(y1)| == |k1| - 3 == |IntToDecimal(y2)|;
      assert k1[..|k1| - 3] == IntToDecimal(y1);
      assert k2[..|k2| - 3] == IntToDecimal(y2);
      IntToDecimalInjective(y1, y2);
      assert k1[|k1| - 2] == DigitChar(m1 / 10) && k2[|k2| - 2] == DigitChar(m2 / 10);
      assert k1[|k1| - 1] == DigitChar(m1 % 10) && k2[|k2| - 1] == DigitChar(m2 % 10);
    }
  }

  /** The month a log was made in. */
  function LogMonth(log: UsageLog): Month
  {
    Month(log.createdAt.year, log.createdAt.month)
  }

  // ---------------------------------------------------------------------------
  // The monthly buckets

  /** A bucket as the grouping creates it: keyed by its month, spanning that whole month, paid. */
  predicate IsMonthBucket(b: BillingRecord)
  {
    && b.id == Month(b.date.year, b.date.month)
    && b.date == MonthStart(b.date.year, b.date.month)
    && b.periodStart == b.date
    && b.periodEnd == MonthEnd(b.date.year, b.date.month)
    && b.status == Paid
  }

  /** The bucket created for the first log of the month of `d`: no tokens yet, paid. */
  function NewBucket(d: CalendarDate): (b: BillingRecord)
    ensures IsMonthBucket(b)
    ensures b.date.year == d.year && b.date.month == d.month
    ensures b.tokensUsed == 0
  {
    var start := MonthStart(d.year, d.month);
    BillingRecord(Month(d.year, d.month), start, 0, Paid, start, MonthEnd(d.year, d.month))
  }

  /** The record's `id` as the text the history shows, `YYYY-MM`. */
  function RecordKey(b: BillingRecord): string
  {
    MonthKey(b.id.year, b.id.month)
  }

  /**
   * The `monthlyBilling` object: its entries, and its keys in insertion order,
   * which is the order `Object.values` lists them in. An entry is found by its
   * month; the object's string key is that month's `MonthKey`, which is the
   * same lookup because `MonthKey` is injective.
   */
  datatype MonthlyBilling = MonthlyBilling(buckets: map<Month, BillingRecord>, keys: seq<Month>)

  const NoBuckets := MonthlyBilling(map[], [])

  /** The keys list each entry of the map exactly once. */
  ghost predicate WellKeyed(m: MonthlyBilling)
  {
    && (forall i, j :: 0 <= i < j < |m.keys| ==> m.keys[i] != m.keys[j])
    && (forall k :: k in m.buckets <==> k in m.keys)
  }

  /** Well keyed, and each entry is the bucket of its own month. */
  ghost predicate Valid(m: MonthlyBilling)
  {
    && WellKeyed(m)
    && (forall k :: k in m.buckets ==> m.buckets[k].id == k && IsMonthBucket(m.buckets[k]))
  }

  /** `Object.values(monthlyBilling)`. */
  function Values(m: MonthlyBilling): (r: seq<BillingRecord>)
    requires forall i :: 0 <= i < |m.keys| ==> m.keys[i] in m.buckets
    ensures |r| == |m.keys|
    ensures forall i :: 0 <= i < |r| ==> r[i] == m.buckets[m.keys[i]]
  {
    seq(|m.keys|, i requires 0 <= i < |m.keys| => m.buckets[m.keys[i]])
  }

  /**
   * One step of the `forEach`: the log's month gets a fresh bucket only if it
   * has none, and only that bucket grows, by the log's tokens.
   */
  function AddLog(m: MonthlyBilling, log: UsageLog): (r: MonthlyBilling)
    ensures r.buckets.Keys == m.buckets.Keys + {LogMonth(log)}
    ensures r.keys == if LogMonth(log) in m.buckets then m.keys else m.keys + [LogMonth(log)]
    ensures forall k :: k in m.buckets && k != LogMonth(log) ==> r.buckets[k] == m.buckets[k]
    ensures LogMonth(log) in m.buckets ==>
      r.buckets[LogMonth(log)] == m.buckets[LogMonth(log)].(tokensUsed := r.buckets[LogMonth(log)].tokensUsed)
    ensures LogMonth(log) !in m.buckets ==>
      r.buckets[LogMonth(log)].(tokensUsed := 0) == NewBucket(log.createdAt)
    ensures r.buckets[LogMonth(log)].tokensUsed ==
      (if LogMonth(log) in m.buckets then m.buckets[LogMonth(log)].tokensUsed else 0) + LogTokens(log)
  {
    var key := LogMonth(log);
    var created := if key in m.buckets then m
                   else MonthlyBilling(m.buckets[key := NewBucket(log.createdAt)], m.keys + [key]);
    var bucket := created.buckets[key];
    MonthlyBilling(created.buckets[key := bucket.(tokensUsed := bucket.tokensUsed + LogTokens(log))], created.keys)
  }

  /** The grouping of `logs` by month, one log at a time from the first. */
  function Group(logs: seq<UsageLog>): (r: MonthlyBilling)
    ensures forall i :: 0 <= i < |r.keys| ==> r.keys[i] in r.buckets
    decreases |logs|
  {
    if logs == [] then NoBuckets else AddLog(Group(logs[..|logs| - 1]), logs[|logs| - 1])
  }

  /** The `forEach` loop that fills `monthlyBilling`, entry by entry. */
  method GroupByMonth(logs: seq<UsageLog>) returns (buckets: map<Month, BillingRecord>, keys: seq<Month>)
    ensures MonthlyBilling(buckets, keys) == Group(logs)
  {
    buckets, keys := map[], [];
    for i := 0 to |logs|
      invariant MonthlyBilling(buckets, keys) == Group(logs[..i])
    {
      assert logs[..i + 1][..i] == logs[..i];
      var log := logs[i];
      var key := LogMonth(log);
      if key !in buckets {
        buckets := buckets[key := NewBucket(log.createdAt)];
        keys := keys + [key];
      }
      buckets := buckets[key := buckets[key].(tokensUsed := buckets[key].tokensUsed + LogTokens(log))];
    }
    assert logs[..|logs|] == logs;
  }

  lemma AddLogValid(m: MonthlyBilling, log: UsageLog)
    requires Valid(m)
    ensures Valid(AddLog(m, log))
  {
    var r := AddLog(m, log);
    var key := LogMonth(log);
    if key !in m.buckets {
      assert key !in m.keys;
      assert r.keys == m.keys + [key];
      forall i, j | 0 <= i < j < |r.keys| ensures r.keys[i] != r.keys[j] {
        if j == |m.keys| {
          assert r.keys[i] == m.keys[i];
        } else {
          assert r.keys[i] == m.keys[i] && r.keys[j] == m.keys[j];
        }
      }
      assert IsMonthBucket(r.buckets[key]) by {
        var b := NewBucket(log.createdAt);
        assert r.buckets[key] == b.(tokensUsed := LogTokens(log));
      }
    } else {
      assert r.buckets[key] == m.buckets[key].(tokensUsed := r.buckets[key].tokensUsed);
    }
    forall k | k in r.buckets ensures r.buckets[k].id == k && IsMonthBucket(r.buckets[k]) {
      if k != key {
        assert r.buckets[k] == m.buckets[k];
      }
    }
  }

  /** The grouping keeps its keys distinct, in step with its entries, and each entry a month bucket. */
  lemma {:induction false} GroupValid(logs: seq<UsageLog>)
    ensures Valid(Group(logs))
    decreases |logs|
  {
    if logs != [] {
      GroupValid(logs[..|logs| - 1]);
      AddLogValid(Group(logs[..|logs| - 1]), logs[|logs| - 1]);
    }
  }

  /** A month has a bucket exactly when some log falls in it. */
  lemma {:induction false} GroupKeys(logs: seq<UsageLog>, key: Month)
    ensures key in Group(logs).buckets <==> exists i :: 0 <= i < |logs| && LogMonth(logs[i]) == key
    decreases |logs|
  {
    if logs != [] {
      var init := logs[..|logs| - 1];
      GroupKeys(init, key);
      if exists i :: 0 <= i < |init| && LogMonth(init[i]) == key {
        var i :| 0 <= i < |init| && LogMonth(init[i]) == key;
        assert logs[i] == init[i];
      }
      if exists i :: 0 <= i < |logs| && LogMonth(logs[i]) == key {
        var i :| 0 <= i < |logs| && LogMonth(logs[i]) == key;
        if i < |init| {
          assert init[i] == logs[i];
        }
      }
    }
  }

  /** Whether a log falls in the month `key`. */
  function InMonth(key: Month): UsageLog -> bool
  {
    l => LogMonth(l) == key
  }

  /** The tokens of the logs of one month. */
  function TokensInMonth(logs: seq<UsageLog>, key: Month): nat
  {
    TotalTokens(Filter(logs, InMonth(key)))
  }

  /** The tokens the grouping holds for a month: its bucket's count, or none without a bucket. */
  function HeldTokens(m: MonthlyBilling, key: Month): nat
  {
    if key in m.buckets then m.buckets[key].tokensUsed else 0
  }

  /**
   * Each bucket holds the token total of its own month's logs, and of no
   * others; a month without a bucket had no tokens.
   */
  lemma {:induction false} GroupTokens(logs: seq<UsageLog>, key: Month)
    ensures HeldTokens(Group(logs), key) == TokensInMonth(logs, key)
    decreases |logs|
  {
    if logs != [] {
      var init := logs[..|logs| - 1];
      var last := logs[|logs| - 1];
      var f := Filter(init, InMonth(key));
      GroupTokens(init, key);
      if InMonth(key)(last) {
        assert (f + [last])[..|f|] == f;
      }
    }
  }

  /**
   * The bucket of each log's month starts on day 1 of that month, ends on its
   * last day, carries the month key as its id and is marked paid.
   */
  lemma GroupBucketPeriod(logs: seq<UsageLog>, i: nat)
    requires i < |logs|
    ensures var d := logs[i].createdAt;
      && LogMonth(logs[i]) in Group(logs).buckets
      && var b := Group(logs).buckets[LogMonth(logs[i])];
      && RecordKey(b) == MonthKey(d.year, d.month)
      && b.status == Paid
      && b.date == b.periodStart == Date(d.year, d.month, 1)
      && b.periodEnd == Date(d.year, d.month, DaysInMonth(d.year, d.month))
  {
    GroupKeys(logs, LogMonth(logs[i]));
    GroupValid(logs);
  }

  function BucketTokens(b: BillingRecord): nat
  {
    b.tokensUsed
  }

  /** Replacing the bucket of a month that has one changes the total by the difference. */
  lemma ReplaceBucketTokens(m: MonthlyBilling, key: Month, b: BillingRecord)
    requires WellKeyed(m) && key in m.buckets
    ensures Sum(Values(MonthlyBilling(m.buckets[key := b], m.keys)), BucketTokens) + m.buckets[key].tokensUsed
         == Sum(Values(m), BucketTokens) + b.tokensUsed
  {
    var before := Values(m);
    var after := Values(MonthlyBilling(m.buckets[key := b], m.keys));
    var i :| 0 <= i < |m.keys| && m.keys[i] == key;
    assert after == before[i := b] by {
      forall j | 0 <= j < |after| ensures after[j] == before[i := b][j] {
        if j != i {
          assert m.keys[j] != key;
        }
      }
    }
    SumUpdate(before, i, b, BucketTokens);
  }

  /** Adding a bucket for a month that has none, at the end of the keys, adds its tokens to the total. */
  lemma AppendBucketTokens(m: MonthlyBilling, key: Month, b: BillingRecord)
    requires WellKeyed(m) && key !in m.buckets
    ensures Sum(Values(MonthlyBilling(m.buckets[key := b], m.keys + [key])), BucketTokens)
         == Sum(Values(m), BucketTokens) + b.tokensUsed
  {
    var r := MonthlyBilling(m.buckets[key := b], m.keys + [key]);
    var before := Values(m);
    var after := Values(r);
    assert after == before + [b] by {
      forall j | 0 <= j < |after| ensures after[j] == (before + [b])[j] {
        if j < |before| {
          assert m.keys[j] != key;
        }
      }
    }
    assert (before + [b])[..|before|] == before;
  }

  /** One step of the grouping adds exactly the log's tokens to the buckets' total. */
  lemma AddLogConservesTokens(m: MonthlyBilling, log: UsageLog)
    requires WellKeyed(m)
    ensures Sum(Values(AddLog(m, log)), BucketTokens) == Sum(Values(m), BucketTokens) + LogTokens(log)
  {
    var key := LogMonth(log);
    var r := AddLog(m, log);
    var added := r.buckets[key];
    if key in m.buckets {
      assert r == MonthlyBilling(m.buckets[key := added], m.keys);
      ReplaceBucketTokens(m, key, added);
    } else {
      assert r == MonthlyBilling(m.buckets[key := added], m.keys + [key]);
      AppendBucketTokens(m, key, added);
    }
  }

  /** Grouping conserves tokens: the buckets together hold exactly the tokens of all the logs. */
  lemma {:induction false} GroupConservesTokens(logs: seq<UsageLog>)
    ensures Valid(Group(logs))
    ensures Sum(Values(Group(logs)), BucketTokens) == TotalTokens(logs)
    decreases |logs|
  {
    GroupValid(logs);
    if logs != [] {
      var init := logs[..|logs| - 1];
      GroupConservesTokens(init);
      AddLogConservesTokens(Group(init), logs[|logs| - 1]);
    }
  }

  // ---------------------------------------------------------------------------
  // The billing history

  /** `new Date(b.date).getTime()`, the sort key of the history. */
  function BucketTime(b: BillingRecord): int
  {
    Ordinal(b.date)
  }

  /** `Object.values(monthlyBilling).sort((a, b) => time(b) - time(a))`. */
  function History(logs: seq<UsageLog>): (r: seq<BillingRecord>)
    ensures multiset(r) == multiset(Values(Group(logs)))
    ensures forall i, j :: 0 <= i < j < |r| ==> Ordinal(r[i].date) >= Ordinal(r[j].date)
  {
    SortDesc(Values(Group(logs)), BucketTime)
  }

  /** Distinct month buckets have distinct start dates. */
  lemma ValuesDistinctTimes(m: MonthlyBilling)
    requires Valid(m)
    ensures DistinctKeys(Values(m), BucketTime)
  {
    var vs := Values(m);
    forall i, j | 0 <= i < j < |vs| ensures BucketTime(vs[i]) != BucketTime(vs[j]) {
      OrdinalOrder(vs[i].date, vs[j].date);
    }
  }

  /** The billing history lists its months strictly newest first. */
  lemma HistoryNewestFirst(logs: seq<UsageLog>)
    ensures var h := History(logs);
      forall i, j :: 0 <= i < j < |h| ==> BucketTime(h[i]) > BucketTime(h[j])
  {
    var m := Group(logs);
    GroupValid(logs);
    ValuesDistinctTimes(m);
    SortDescDistinct(Values(m), BucketTime);
  }

  /** Any ordering of a valid grouping's values holds only its buckets, each under its own month. */
  lemma ReorderedValuesAreBuckets(m: MonthlyBilling, h: seq<BillingRecord>)
    requires Valid(m)
    requires multiset(h) == multiset(Values(m))
    ensures forall i :: 0 <= i < |h| ==> IsMonthBucket(h[i]) && h[i].id in m.buckets && h[i] == m.buckets[h[i].id]
  {
    var vs := Values(m);
    forall i | 0 <= i < |h| ensures IsMonthBucket(h[i]) && h[i].id in m.buckets && h[i] == m.buckets[h[i].id] {
      assert h[i] in multiset(vs);
      var j :| 0 <= j < |vs| && vs[j] == h[i];
      assert m.keys[j] in m.buckets;
    }
  }

  /** Any ordering of a valid grouping's values holds every one of its buckets. */
  lemma ReorderedValuesHaveEveryBucket(m: MonthlyBilling, h: seq<BillingRecord>)
    requires Valid(m)
    requires multiset(h) == multiset(Values(m))
    ensures forall k :: k in m.buckets ==> exists i :: 0 <= i < |h| && h[i] == m.buckets[k]
  {
    var vs := Values(m);
    forall k | k in m.buckets ensures exists i :: 0 <= i < |h| && h[i] == m.buckets[k] {
      var j :| 0 <= j < |m.keys| && m.keys[j] == k;
      assert vs[j] in multiset(h);
    }
  }

  /** Every record of the billing history is the bucket of its own month. */
  lemma HistoryRecordsAreBuckets(logs: seq<UsageLog>)
    ensures var h := History(logs);
      forall i :: 0 <= i < |h| ==>
        IsMonthBucket(h[i]) && h[i].id in Group(logs).buckets && h[i] == Group(logs).buckets[h[i].id]
  {
    GroupValid(logs);
    ReorderedValuesAreBuckets(Group(logs), History(logs));
  }

  /** Every month bucket appears in the billing history. */
  lemma HistoryHasEveryBucket(logs: seq<UsageLog>)
    ensures var h := History(logs);
      forall k :: k in Group(logs).buckets ==> exists i :: 0 <= i < |h| && h[i] == Group(logs).buckets[k]
  {
    GroupValid(logs);
    ReorderedValuesHaveEveryBucket(Group(logs), History(logs));
  }

  /** No two records of the billing history carry the same `YYYY-MM` id. */
  lemma HistoryKeysDistinct(logs: seq<UsageLog>)
    ensures var h := History(logs);
      forall i, j :: 0 <= i < j < |h| ==> RecordKey(h[i]) != RecordKey(h[j])
  {
    var h := History(logs);
    HistoryNewestFirst(logs);
    HistoryRecordsAreBuckets(logs);
    forall i, j | 0 <= i < j < |h| ensures RecordKey(h[i]) != RecordKey(h[j]) {
      assert h[i].date != h[j].date;
      MonthKeyInjective(h[i].id.year, h[i].id.month, h[j].id.year, h[j].id.month);
    }
  }

  /** The history's token counts add up to the tokens of all the logs it was built from. */
  lemma HistoryConservesTokens(logs: seq<UsageLog>)
    ensures Sum(History(logs), BucketTokens) == TotalTokens(logs)
  {
    GroupConservesTokens(logs);
    SumPermutation(History(logs), Values(Group(logs)), BucketTokens);
  }

  // ---------------------------------------------------------------------------
  // The models used

  /** `logs.map(log => log.models?.internal_name).filter(Boolean)`: the present, non-empty names. */
  function ModelNames(logs: seq<UsageLog>): (r: seq<string>)
    ensures forall i :: 0 <= i < |r| ==> r[i] != "" && exists j :: 0 <= j < |logs| && logs[j].model == Some(r[i])
    ensures forall j :: 0 <= j < |logs| && logs[j].model.Some? && logs[j].model.value != "" ==> logs[j].model.value in r
    decreases |logs|
  {
    if logs == [] then []
    else
      var init := ModelNames(logs[..|logs| - 1]);
      assert forall j :: 0 <= j < |logs| - 1 ==> logs[..|logs| - 1][j] == logs[j];
      match logs[|logs| - 1].model
      case Some(name) => if name != "" then init + [name] else init
      case None => init
  }

  /** `[...new Set(names)]`: every model name in use, each once. */
  function UniqueModels(logs: seq<UsageLog>): (r: seq<string>)
    ensures forall i, j :: 0 <= i < j < |r| ==> r[i] != r[j]
    ensures forall i :: 0 <= i < |r| ==> r[i] != "" && exists j :: 0 <= j < |logs| && logs[j].model == Some(r[i])
    ensures forall j :: 0 <= j < |logs| && logs[j].model.Some? && logs[j].model.value != "" ==> logs[j].model.value in r
  {
    Dedup(ModelNames(logs))
  }

  // ---------------------------------------------------------------------------
  // The queries and the whole fetch

  /** The row test of `.eq('user_id', user).gte('created_at', since)`. */
  function MadeSince(user: string, since: CalendarDate): UsageLog -> bool
  {
    (l: UsageLog) => l.userId == user && Ordinal(l.createdAt) >= Ordinal(since)
  }

  /** `.from('usage_logs').eq('user_id', user).gte('created_at', since)`. */
  function LogsSince(table: seq<UsageLog>, user: string, since: CalendarDate): (r: seq<UsageLog>)
    ensures forall i :: 0 <= i < |r| ==> r[i] in table && r[i].userId == user && Ordinal(r[i].createdAt) >= Ordinal(since)
    ensures forall i :: 0 <= i < |table| ==>
              (table[i].userId == user && Ordinal(table[i].createdAt) >= Ordinal(since) ==> table[i] in r)
  {
    Filter(table, MadeSince(user, since))
  }

  function LogTime(l: UsageLog): int
  {
    Ordinal(l.createdAt)
  }

  /** The billing query: `LogsSince`, then `.order('created_at', { ascending: false })`. */
  function BillingLogs(table: seq<UsageLog>, user: string, since: CalendarDate): (r: seq<UsageLog>)
    ensures multiset(r) == multiset(LogsSince(table, user, since))
    ensures forall i, j :: 0 <= i < j < |r| ==> Ordinal(r[i].createdAt) >= Ordinal(r[j].createdAt)
  {
    SortDesc(LogsSince(table, user, since), LogTime)
  }

  /** The `UsageData` built from this month's logs and the billing window's logs. */
  function Summarize(usageLogs: seq<UsageLog>, billingLogs: seq<UsageLog>): (r: UsageData)
    ensures r.requestsThisMonth == |usageLogs| && r.tokensThisMonth == TotalTokens(usageLogs)
    ensures forall i, j :: 0 <= i < j < |r.modelsUsed| ==> r.modelsUsed[i] != r.modelsUsed[j]
    ensures forall i, j :: 0 <= i < j < |r.billingHistory| ==>
      BucketTime(r.billingHistory[i]) > BucketTime(r.billingHistory[j])
    ensures Sum(r.billingHistory, BucketTokens) == TotalTokens(billingLogs)
    ensures r.modelsUsed == UniqueModels(usageLogs) && r.billingHistory == History(billingLogs)
  {
    HistoryNewestFirst(billingLogs);
    HistoryConservesTokens(billingLogs);
    UsageData(TotalTokens(usageLogs), |usageLogs|, UniqueModels(usageLogs), History(billingLogs))
  }

  /**
   * `fetchUsageData`: nothing without a signed-in user; otherwise the summary of
   * the user's logs since the first of the current month, with the billing
   * history of the user's logs since `sixMonthsAgo`.
   */
  method FetchUsageData(table: seq<UsageLog>, user: Option<string>, today: CalendarDate, sixMonthsAgo: CalendarDate)
    returns (data: Option<UsageData>)
    ensures user.None? <==> data.None?
    ensures user.Some? ==> data == Some(Summarize(
      LogsSince(table, user.value, MonthStart(today.year, today.month)),
      BillingLogs(table, user.value, sixMonthsAgo)))
  {
    if user.None? {
      return None;
    }
    var startOfMonth := MonthStart(today.year, today.month);
    var usageLogs := LogsSince(table, user.value, startOfMonth);
    var billingLogs := BillingLogs(table, user.value, sixMonthsAgo);
    var buckets, keys := GroupByMonth(billingLogs);
    GroupValid(billingLogs);
    var history := SortDesc(Values(MonthlyBilling(buckets, keys)), BucketTime);
    data := Some(UsageData(TotalTokens(usageLogs), |usageLogs|, UniqueModels(usageLogs), history));
  }

  /** A log dated no later than `today` is in today's month exactly when it is on or after its first day. */
  lemma InCurrentMonth(d: CalendarDate, today: CalendarDate)
    requires Ordinal(d) <= Ordinal(today)
    ensures d.year == today.year && d.month == today.month
      <==> Ordinal(d) >= Ordinal(MonthStart(today.year, today.month))
  {
    OrdinalOrder(d, today);
    OrdinalOrder(MonthStart(today.year, today.month), d);
  }

  /**
   * When no log is dated after today and the billing window reaches back to
   * the first of the month, the window's logs of the current month are this
   * month's logs, in some order.
   */
  lemma CurrentMonthLogs(table: seq<UsageLog>, user: string, today: CalendarDate, since: CalendarDate)
    requires Ordinal(since) <= Ordinal(MonthStart(today.year, today.month))
    requires forall i :: 0 <= i < |table| ==> Ordinal(table[i].createdAt) <= Ordinal(today)
    ensures multiset(Filter(BillingLogs(table, user, since), InMonth(Month(today.year, today.month))))
         == multiset(LogsSince(table, user, MonthStart(today.year, today.month)))
  {
    var start := MonthStart(today.year, today.month);
    var inMonth := InMonth(Month(today.year, today.month));
    var inWindow := MadeSince(user, since);
    var sinceStart := MadeSince(user, start);
    FilterFilter(table, inWindow, inMonth);
    forall i | 0 <= i < |table| ensures Both(inWindow, inMonth)(table[i]) == sinceStart(table[i]) {
      InCurrentMonth(table[i].createdAt, today);
    }
    FilterCongruent(table, Both(inWindow, inMonth), sinceStart);
    FilterPermutation(BillingLogs(table, user, since), LogsSince(table, user, since), inMonth);
  }

  /**
   * When no log is dated after today and the billing window reaches back to
   * the first of the month, the history's bucket for the current month agrees
   * with the overview: it exists exactly when there were requests this month,
   * and it holds `tokensThisMonth`.
   */
  lemma CurrentMonthBucketMatchesTotals(table: seq<UsageLog>, user: string, today: CalendarDate, since: CalendarDate)
    requires Ordinal(since) <= Ordinal(MonthStart(today.year, today.month))
    requires forall i :: 0 <= i < |table| ==> Ordinal(table[i].createdAt) <= Ordinal(today)
    ensures var current := LogsSince(table, user, MonthStart(today.year, today.month));
      var buckets := Group(BillingLogs(table, user, since)).buckets;
      var key := Month(today.year, today.month);
      && (key in buckets <==> |current| > 0)
      && (key in buckets ==> buckets[key].tokensUsed == TotalTokens(current))
  {
    var key := Month(today.year, today.month);
    var current := LogsSince(table, user, MonthStart(today.year, today.month));
    var billing := BillingLogs(table, user, since);
    var monthLogs := Filter(billing, InMonth(key));
    CurrentMonthLogs(table, user, today, since);
    assert |monthLogs| == |current| by {
      assert |multiset(monthLogs)| == |multiset(current)|;
    }
    SumPermutation(monthLogs, current, LogTokens);
    GroupTokens(billing, key);
    MonthHasBucket(billing, key);
  }

  /** A month has a bucket exactly when some of the logs fall in it. */
  lemma MonthHasBucket(logs: seq<UsageLog>, key: Month)
    ensures key in Group(logs).buckets <==> |Filter(logs, InMonth(key))| > 0
  {
    GroupKeys(logs, key);
    if key in Group(logs).buckets {
      var i :| 0 <= i < |logs| && LogMonth(logs[i]) == key;
      assert logs[i] in Filter(logs, InMonth(key));
    }
    if |Filter(logs, InMonth(key))| > 0 {
      assert Filter(logs, InMonth(key))[0] in logs && InMonth(key)(Filter(logs, InMonth(key))[0]);
    }
  }
}
