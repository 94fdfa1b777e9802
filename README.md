# Payment analytics engine, modelled in Dafny

`PaymentAnalytics` is a DuckDB-backed analytics engine for subscription
payment data. It loads three CSV snapshots (users, subscriptions,
transactions) into tables. Each of its metrics is then one SQL aggregation
over those tables: monthly churn by cohort, payment acceptance by gateway and
country, cash-versus-booked revenue reconciliation, gateway friction
detection, cohort retention, an executive KPI bundle and the edge list of a
Sankey diagram.

The repository holds two divergent copies of the engine, and each has its
own model:

- `src/payment_intelligence/etl_logic.py` (the "Payment Intelligence Suite"):
  modules `SuiteEngine`, `SuiteChurn`, `SuiteAcceptance`,
  `SuiteReconciliation`, `SuiteFriction`, `SuiteRetention`,
  `SuiteExecutive`, `SuiteSankey`;
- `payment_intelligence/etl_logic.py` (the "optimized" engine the dashboard
  uses): modules `OptimizedEngine`, `OptimizedExecutive`, `OptimizedChurn`,
  `OptimizedAcceptance`, `OptimizedFriction`, `OptimizedRetention`,
  `OptimizedSankey`, `OptimizedReconciliation`.

The copies differ in several ways:

- status labels ('Churned' against 'Cancelled');
- whether a NULL country is coalesced to 'Unknown';
- how the friction baseline is taken;
- how retention is normalised;
- whether reconciliation coalesces a missing side to 0;
- whether loading is guarded.

Shared modules:

- `Relational` states SQL as pure functions over sequences:
  - WHERE, GROUP BY (`Keys`, `Group`), SUM/AVG/COUNT(DISTINCT);
  - NULLIF-guarded percentages and COALESCE;
  - ORDER BY as a deterministic insertion sort, and ORDER BY .. LIMIT;
  - FULL OUTER JOIN;
  - it also holds the lemmas about them (partition of sums, permutation and
    sortedness of ORDER BY, the rows a LIMIT keeps and drops).
- `Calendar` holds civil dates, the month index `year*12 + month-1` (which
  DATE_TRUNC('month', ..) becomes) and the `INTERVAL 'n days'` /
  `INTERVAL 'n months'` windows.
- `Records` holds the three record types, the CASE WHEN indicator weights
  and the users-subscriptions join.
- `Catalog` holds the connection's tables and CREATE TABLE .. AS.

Conventions:

- SQL NULL is `Option`. Only `Transaction.country` and `Transaction.errorCode` are nullable. Every other column, including gateway, status, the dates, amount and mrr_amount, is modelled as NOT NULL, as the data schema describes them.
- Money is integer cents, which is exact for DECIMAL(10,2).
- Rates are exact reals, taken before ROUND or `::FLOAT`.
- CURRENT_DATE is the parameter `today`.

Each loader is a class whose `LoadData` method changes the table state and
the loaded flag. Its contract ties the new state to a reference function
`Load`, and the lemmas about `Load` state what the source promises. Every
metric is a function, and lemmas characterise its result. They say:

- which rows appear, and that every qualifying group does appear;
- what each column equals;
- the bounds on each column;
- when each column is NULL, in both directions;
- that the rows are ordered and are a permutation of the grouped rows;
- the conservation laws the Sankey weights obey.

`SuiteExecutive.ExecutiveMetrics` is a method, because the source fills the
dictionary one key at a time.

## Model

| member | source | states |
|---|---|---|
| Catalog.CreateTableAs | src/payment_intelligence/etl_logic.py:56-95 | CREATE TABLE .. AS creates the table with the CSV's rows exactly when the CSV exists and the table does not. A missing CSV is an I/O error; an existing table is a catalog error. |
| SuiteEngine.PaymentAnalytics.constructor | src/payment_intelligence/etl_logic.py:32-42 | The connection starts with the tables of the database path, and `tables_loaded` is false. |
| SuiteEngine.PaymentAnalytics.LoadData | src/payment_intelligence/etl_logic.py:44-103 | The new tables, flag and raised error equal `Load` of the old state. A missing users.csv raises FileNotFoundError. The three CREATE TABLE statements run in order and stop at the first failure, keeping the tables already created. The flag is set only after all three. The flag implies that all tables exist. |
| SuiteEngine.Load | src/payment_intelligence/etl_logic.py:44-103 | A call only creates missing tables from their CSV files: it never drops or replaces an existing table. A call that succeeds sets the flag, with all three tables present; a call that fails leaves the flag as it was. |
| SuiteEngine.LoadSucceeds | src/payment_intelligence/etl_logic.py:51-103 | A load succeeds exactly when none of the three tables exists and all three files are present. On success the tables hold the files' rows. |
| SuiteEngine.LoadFlag | src/payment_intelligence/etl_logic.py:103 | After a call the flag is its old value or'ed with the call's success. |
| SuiteEngine.LoadAgainFails | src/payment_intelligence/etl_logic.py:53-64 | Once the users table exists, every call raises and changes nothing: FileNotFoundError without users.csv, a catalog error otherwise. So loading twice is not idempotent. |
| SuiteEngine.LoadPartial | src/payment_intelligence/etl_logic.py:56-78 | With subscriptions.csv missing, a fresh load leaves only the users table, raises the I/O error and keeps the flag false. Any retry then fails. |
| SuiteChurn.MonthlyChurnRate | src/payment_intelligence/etl_logic.py:115-159 | At most 24 rows (LIMIT 24), drawn from the grouped cohort rows and ordered by cohort month, latest first. AllCohortsRow, ChurnOrder and CohortPresent state what a row holds and which cohorts are kept. |
| SuiteChurn.CohortMetrics | src/payment_intelligence/etl_logic.py:136-153 | A cohort_metrics row carries its month. churn_rate_pct and retention_rate_pct are NULL exactly when total_subs is 0. |
| SuiteChurn.AllCohortsRow | src/payment_intelligence/etl_logic.py:126-145 | Every grouped row is the cohort_metrics row of a cohort month that some joined (user, subscription) row has. |
| SuiteChurn.AllCohortsUnique | src/payment_intelligence/etl_logic.py:136-145 | GROUP BY gives one row per cohort month. |
| SuiteChurn.CountsOfGroup | src/payment_intelligence/etl_logic.py:139-142 | Within a group, the churned, active and past-due counts are non-negative and sum to at most the group size. They sum to exactly the group size when every status is one of the three labels. |
| SuiteChurn.CohortCounts | src/payment_intelligence/etl_logic.py:126-156 | Given unique user and sub ids, every reported row has total_subs > 0. churned+active+past_due <= total_subs, with equality when all statuses are counted. Both rates are the exact percentages and lie in [0, 100]. The cohort month is the signup month of some user who has a subscription. |
| SuiteChurn.ChurnOrder | src/payment_intelligence/etl_logic.py:155-156 | At most 24 rows, in strictly descending cohort month. |
| SuiteChurn.CohortPresent | src/payment_intelligence/etl_logic.py:126-145 | Every user who has a subscription contributes a cohort row for their signup month. |
| SuiteChurn.LatestCohorts | src/payment_intelligence/etl_logic.py:126-156 | Every such cohort is reported, unless LIMIT 24 is full with strictly later cohorts. |
| SuiteAcceptance.PaymentAcceptanceRateByGateway | src/payment_intelligence/etl_logic.py:161-202 | A permutation of the rows of the qualifying (gateway, country) pairs, ordered by attempts descending, then acceptance ascending. RowIsQualifyingPair and QualifyingPairReported state which pairs those are. |
| SuiteAcceptance.GatewayStats | src/payment_intelligence/etl_logic.py:175-197 | A (gateway, country) group's row shows COALESCE(country, 'Unknown') and counts the group's windowed attempts. |
| SuiteAcceptance.RowIsQualifyingPair | src/payment_intelligence/etl_logic.py:175-186 | Every reported row is the row of a raw (gateway, country) group of transactions from the last 90 days, with at least min_transactions attempts. The row shows 'Unknown' exactly for a NULL or literal 'Unknown' country. |
| SuiteAcceptance.StatsBounds | src/payment_intelligence/etl_logic.py:179-197 | successful + soft + hard <= total_attempts, with every count non-negative. The three rates lie in [0, 100] and sum to at most 100. |
| SuiteAcceptance.RowBounds | src/payment_intelligence/etl_logic.py:175-197 | The same bounds for every reported row. |
| SuiteAcceptance.PairRowPresent | src/payment_intelligence/etl_logic.py:175-185 | Every non-empty windowed group has its row among the grouped rows. |
| SuiteAcceptance.QualifyingPairReported | src/payment_intelligence/etl_logic.py:184-199 | Every windowed group with at least min_transactions attempts is reported. |
| SuiteAcceptance.Ordered | src/payment_intelligence/etl_logic.py:186-199 | The output is a permutation of the qualifying groups' rows, ordered by attempts descending, then acceptance rate ascending. |
| SuiteReconciliation.RevenueReconciliation | src/payment_intelligence/etl_logic.py:204-250 | At most 12 rows (LIMIT 12), drawn from the rows of the full outer join, latest month first. MonthFigures and LatestMonths compare them with the reference MonthReconciliation. |
| SuiteReconciliation.MakeRow | src/payment_intelligence/etl_logic.py:234-243 | variance = cash - booked. variance_pct is NULL exactly when booked is 0. |
| SuiteReconciliation.CashRowOfMonth | src/payment_intelligence/etl_logic.py:216-224 | Every monthly_cash row is the row of a month in which some transaction falls. |
| SuiteReconciliation.BookedRowOfMonth | src/payment_intelligence/etl_logic.py:225-233 | Every monthly_booked row is the row of a start month of some Active or Past Due subscription. |
| SuiteReconciliation.CashLookup | src/payment_intelligence/etl_logic.py:216-245 | A month has no monthly_cash row to join exactly when no transaction falls in it. |
| SuiteReconciliation.BookedLookup | src/payment_intelligence/etl_logic.py:225-245 | A month has no monthly_booked row to join exactly when no booked subscription started in it. |
| SuiteReconciliation.CashSide | src/payment_intelligence/etl_logic.py:216-242 | A joined cash side coalesced to 0 gives three figures for the month: cash is the Success amounts, successful_payments the Success count, total_attempts the count. |
| SuiteReconciliation.BookedSide | src/payment_intelligence/etl_logic.py:225-243 | A joined booked side coalesced to 0 is the month's mrr sum and its distinct sub_id count. |
| SuiteReconciliation.JoinedRowIsMonth | src/payment_intelligence/etl_logic.py:234-245 | Every FULL OUTER JOIN row is the reference reconciliation of its month, and that month has cash or booked activity. |
| SuiteReconciliation.AllMonthsExact | src/payment_intelligence/etl_logic.py:234-245 | Every row before ORDER BY is its month's reference reconciliation. |
| SuiteReconciliation.MonthReported | src/payment_intelligence/etl_logic.py:244-245 | A month present on either side only is still reported. |
| SuiteReconciliation.MonthFigures | src/payment_intelligence/etl_logic.py:216-240 | cash_collected is the month's Success amount sum. booked_revenue is the month's mrr sum over Active and Past Due subscriptions. A side that is missing reads 0. variance = cash - booked. variance_pct is NULL exactly when booked is 0. |
| SuiteReconciliation.AllMonthsUnique | src/payment_intelligence/etl_logic.py:235-245 | One row per month. |
| SuiteReconciliation.ReconOrder | src/payment_intelligence/etl_logic.py:246-247 | At most 12 rows, in strictly descending month. |
| SuiteReconciliation.LatestMonths | src/payment_intelligence/etl_logic.py:244-247 | Every active month is reported, unless LIMIT 12 is full with strictly later months. |
| SuiteFriction.DetectGatewayFriction | src/payment_intelligence/etl_logic.py:252-300 | A permutation of the rows of the pairs with at least 50 windowed attempts, ordered by variance ascending, then attempts descending. RowIsSignificantPair, FlaggedRow and SignificantPairReported state what the rows hold. |
| SuiteFriction.Classify | src/payment_intelligence/etl_logic.py:290-294 | High Friction exactly when rate < baseline - 10. Medium Friction exactly when baseline - 10 <= rate < baseline - 5. Normal otherwise, including a NULL baseline. |
| SuiteFriction.BaselinePct | src/payment_intelligence/etl_logic.py:263-267 | The baseline is NULL exactly when there is no transaction at all. Otherwise it is the Success percentage over all transactions, not only the 90-day window. |
| SuiteFriction.Variance | src/payment_intelligence/etl_logic.py:288 | variance_from_baseline is NULL exactly when the baseline is, and otherwise variance + baseline = rate. |
| SuiteFriction.PairFriction | src/payment_intelligence/etl_logic.py:268-294 | A group's row shows, for its windowed group: the 'Unknown'-coalesced country, the attempts and successes, the exact acceptance rate, the all-time baseline, the variance, and the flag classified from the rate and the baseline. |
| SuiteFriction.RowIsSignificantPair | src/payment_intelligence/etl_logic.py:268-280 | Every reported row is the row of a windowed (gateway, country) group with at least 50 attempts. |
| SuiteFriction.BaselinePresent | src/payment_intelligence/etl_logic.py:263-288 | In every reported row, the baseline is the all-time Success percentage and the variance is rate - baseline. |
| SuiteFriction.FlagByVariance | src/payment_intelligence/etl_logic.py:288-294 | With a baseline present, the flag thresholds read directly on the variance column: < -10, [-10, -5), >= -5. |
| SuiteFriction.FlaggedRow | src/payment_intelligence/etl_logic.py:288-294 | Every reported row's flag is High, Medium or Normal exactly as its variance is < -10, in [-10, -5), or >= -5. |
| SuiteFriction.VarianceBounds | src/payment_intelligence/etl_logic.py:288 | A variance between two rates in [0, 100] lies in [-100, 100]. |
| SuiteFriction.RowBounds | src/payment_intelligence/etl_logic.py:272-287 | In every reported row, 0 <= successes <= attempts, and the rate and the baseline lie in [0, 100]. |
| SuiteFriction.BaselineBounds | src/payment_intelligence/etl_logic.py:263-267 | A baseline that is present lies in [0, 100]. |
| SuiteFriction.VarianceInRange | src/payment_intelligence/etl_logic.py:288 | Every reported variance is present and lies in [-100, 100]. |
| SuiteFriction.PairRowPresent | src/payment_intelligence/etl_logic.py:268-278 | Every non-empty windowed group has its row among the grouped rows. |
| SuiteFriction.SignificantPairReported | src/payment_intelligence/etl_logic.py:277-297 | Every windowed group with at least 50 attempts is reported. |
| SuiteFriction.Ordered | src/payment_intelligence/etl_logic.py:295-297 | The output is a permutation of the significant groups' rows, ordered by variance ascending, then attempts descending. |
| SuiteFriction.SeverityOrder | src/payment_intelligence/etl_logic.py:290-297 | Because the flag follows the variance column, the rows run from High through Medium to Normal. |
| SuiteRetention.CohortRetentionAnalysis | src/payment_intelligence/etl_logic.py:302-355 | A permutation of the window's retention cells, ordered by cohort month ascending. RowIsCell and CohortReported state which cells those are. |
| SuiteRetention.CellInCohort | src/payment_intelligence/etl_logic.py:326-342 | Every row of a (cohort, offset) cell belongs to its cohort, so the cohort's size is positive. |
| SuiteRetention.RetentionCell | src/payment_intelligence/etl_logic.py:333-349 | A cell's row carries its cohort and offset. cohort_size is the cohort's distinct user count, which is positive. retained_users is the distinct users of the cell who hold an Active subscription. The rate is retained / cohort_size * 100. |
| SuiteRetention.RowIsCell | src/payment_intelligence/etl_logic.py:315-351 | Every reported row is the row of a non-empty cell whose cohort month lies within cohort_months of today. |
| SuiteRetention.CellMonths | src/payment_intelligence/etl_logic.py:322-341 | A cell's offset is today's month minus the cohort month (DATE_DIFF to CURRENT_DATE), and it is at most 12. |
| SuiteRetention.RowShape | src/payment_intelligence/etl_logic.py:315-351 | For every reported row: offset = today's month - cohort month <= 12; the cohort lies in the window; 0 <= retained <= cohort_size with cohort_size > 0; rate = the exact percentage, in [0, 100]. |
| SuiteRetention.KeysByCohort | src/payment_intelligence/etl_logic.py:322-342 | Distinct non-empty cells belong to distinct cohorts, because the offset depends only on the cohort. |
| SuiteRetention.AllCellsUnique | src/payment_intelligence/etl_logic.py:333-343 | At most one row per cohort month. |
| SuiteRetention.Ordered | src/payment_intelligence/etl_logic.py:344-352 | The output is a permutation of the in-window cells' rows, in strictly ascending cohort month. |
| SuiteRetention.CohortReported | src/payment_intelligence/etl_logic.py:315-352 | Every user who has a subscription, whose cohort is at most 12 months old and lies within the window, has their cohort's cell reported. |
| SuiteRetention.CellPresent | src/payment_intelligence/etl_logic.py:333-343 | Every non-empty cell has its row among the grouped rows. |
| SuiteExecutive.ExecutiveMetrics | src/payment_intelligence/etl_logic.py:364-421 | The dictionary has exactly the six keys. mrr and total_revenue are the Active mrr sum and the Success amount sum in currency units. active_subscriptions is the distinct Active sub_id count. The success rate, churn rate and average are each their query's value, with NULL read as 0. |
| SuiteExecutive.MrrIsActiveSum | src/payment_intelligence/etl_logic.py:367-374 | mrr, with NULL read as 0, is the Active mrr sum. |
| SuiteExecutive.RevenueIsSuccessSum | src/payment_intelligence/etl_logic.py:386-392 | total_revenue, with NULL read as 0, is the sum of amounts over Success transactions. |
| SuiteExecutive.AverageIsRevenuePerSuccess | src/payment_intelligence/etl_logic.py:413-419 | avg_transaction_value is NULL exactly when there is no Success transaction. Otherwise it is total_revenue divided by the Success count. |
| SuiteExecutive.SuccessRateBounds | src/payment_intelligence/etl_logic.py:377-384 | The 30-day success rate is NULL exactly when no transaction falls in the last 30 days, and the reported value lies in [0, 100]. |
| SuiteExecutive.ChurnRateBounds | src/payment_intelligence/etl_logic.py:394-411 | The churn rate is NULL exactly when no subscription started in today's month, and the reported value lies in [0, 100]. |
| SuiteExecutive.ActiveSubsCount | src/payment_intelligence/etl_logic.py:367-375 | With unique sub_id, active_subscriptions is the number of Active subscriptions. |
| SuiteSankey.SankeyData | src/payment_intelligence/etl_logic.py:423-480 | A permutation of the rows of the three UNION ALL parts that have a target, largest value first. |
| SuiteSankey.StatusTarget | src/payment_intelligence/etl_logic.py:455-459 | The CASE target is present exactly for the three known labels, and it is 'Authorized' exactly for Success. |
| SuiteSankey.ScopeRows | src/payment_intelligence/etl_logic.py:434-448 | Without a filter (None or empty), the flows cover all transactions. With one, they cover exactly the transactions of that country. |
| SuiteSankey.Ordered | src/payment_intelligence/etl_logic.py:441-477 | The output is a permutation of the flow rows whose target is not NULL. Every output row has a target. Rows are ordered by value descending. |
| SuiteSankey.FlowReported | src/payment_intelligence/etl_logic.py:474-477 | Every flow row with a target is reported. |
| SuiteSankey.SettledReported | src/payment_intelligence/etl_logic.py:467-472 | The Authorized → Settled edge is reported, and its value is the Success count in scope. |
| SuiteSankey.AttemptReported | src/payment_intelligence/etl_logic.py:443-449 | Every gateway used in scope has an Attempt edge with a positive value. |
| SuiteSankey.AttemptConservation | src/payment_intelligence/etl_logic.py:443-449 | The Attempt edges sum to the number of transactions in scope. |
| SuiteSankey.GatewayConservation | src/payment_intelligence/etl_logic.py:453-472 | The edges out of gateways with a known status sum to the transactions in scope whose status is known: at most the scope size, and equal to it when every status is known. The gateway → Authorized edges sum to the Settled edge's value. |
| SuiteSankey.AttemptOutflow | src/payment_intelligence/etl_logic.py:441-480 | Over the returned rows, the edges leaving Attempt sum to the number of transactions in scope, provided no gateway is itself named "Attempt". |
| SuiteSankey.AuthorizedFlow | src/payment_intelligence/etl_logic.py:453-480 | Over the returned rows, the gateway -> Authorized edges sum to the Authorized -> Settled value, which is the only edge leaving Authorized, provided no gateway is itself named "Authorized". |
| Calendar.MinusMonths | src/payment_intelligence/etl_logic.py:351 | `date - INTERVAL 'n months'` lands n months earlier. The day is clamped to the last day of a shorter month. |
| Calendar.WithinMonthsByMonth | payment_intelligence/etl_logic.py:107 | `start_date >= CURRENT_DATE - INTERVAL 'n months'` holds for every month after the n-th earlier one, and implies being no earlier than that month. |
| Records.JoinUsersSubs | src/payment_intelligence/etl_logic.py:133-134 | The join holds exactly the pairs of a user and a subscription with the same user_id. |
| Records.JoinUnique | src/payment_intelligence/etl_logic.py:133-134 | With unique user and sub ids, each sub_id appears once in the join. |
| Records.CommonErrorsOf | src/payment_intelligence/etl_logic.py:275 | STRING_AGG(DISTINCT error_code) is NULL exactly when the group has no error code. Otherwise it holds exactly the group's codes. |
| Records.StatusCounts | src/payment_intelligence/etl_logic.py:180-182 | The Success, Soft Decline and Hard Decline counts are non-negative and sum to at most the group size. They sum to exactly the group size when every status is known. |
| OptimizedEngine.PaymentAnalytics.constructor | payment_intelligence/etl_logic.py:8-12 | A fresh in-memory connection with no tables, and `_data_loaded` false. |
| OptimizedEngine.PaymentAnalytics.LoadData | payment_intelligence/etl_logic.py:14-55 | The new tables, flag and raised error equal `Load` of the old state. The flag implies three non-empty tables. |
| OptimizedEngine.Load | payment_intelligence/etl_logic.py:14-55 | A call only creates missing tables from their CSV files: it never drops or replaces an existing table. The flag is set only when no error is raised, and when this call sets it all three tables are non-empty. A call that raises leaves the flag false. |
| OptimizedEngine.LoadIdempotent | payment_intelligence/etl_logic.py:16-17 | Once loaded, a call returns at once without error and changes nothing, in particular after a successful call. |
| OptimizedEngine.LoadSucceeds | payment_intelligence/etl_logic.py:19-52 | A first load succeeds exactly on a database without the tables, from three present, non-empty files. The flag is set exactly then, and the tables hold the files' rows. |
| OptimizedEngine.LoadRejectsEmpty | payment_intelligence/etl_logic.py:36-55 | With an empty file, the validation's ValueError is raised wrapped in RuntimeError, carrying the three counts. The tables stay created and the flag stays false. |
| OptimizedEngine.LoadAfterFailure | payment_intelligence/etl_logic.py:19-55 | While the flag is false and the users table exists, every call raises, changes no table and sets no flag. |
| OptimizedExecutive.SummaryQuery | payment_intelligence/etl_logic.py:57-89 | The Active count is between 0 and the number of subscriptions. total_mrr is NULL exactly when no subscription is Active. avg_tx is NULL exactly when the last 30 days hold no Success. success_rate is NULL exactly when the last 30 days hold no transaction, and otherwise lies in [0, 100]. churn_rate is COALESCEd and lies in [0, 100]. |
| OptimizedExecutive.ExecutiveMetrics | payment_intelligence/etl_logic.py:57-96 | active_subscriptions lies between 0 and the number of subscriptions. payment_success_rate and churn_rate lie in [0, 100]. A NULL mrr, average or success rate reads 0 through `or 0`. |
| OptimizedExecutive.ActiveAndMrr | payment_intelligence/etl_logic.py:61-92 | active_subscriptions is the number of Active subscriptions (COUNT(*)), between 0 and the table size. mrr is their mrr sum, 0 when there is none. |
| OptimizedExecutive.SuccessRate | payment_intelligence/etl_logic.py:67-94 | With transactions in the last 30 days, the rate is their Success percentage. It always lies in [0, 100], and it is 0 exactly when there is no recent Success. |
| OptimizedExecutive.ChurnRate | payment_intelligence/etl_logic.py:75-95 | churn_rate is the 'Cancelled' percentage over all subscriptions, in [0, 100]. It is 0 exactly when none is Cancelled, including when there are no subscriptions. |
| OptimizedExecutive.AverageValue | payment_intelligence/etl_logic.py:67-93 | avg_transaction_value is the mean Success amount over the last 30 days, and 0 when there is none. |
| OptimizedChurn.MonthlyChurnRate | payment_intelligence/etl_logic.py:98-118 | A permutation of the per-start-month rows of the last 12 months, months ascending. RowIsMonth, MonthReported and TotalsAddUp state what the rows hold. |
| OptimizedChurn.Complement | payment_intelligence/etl_logic.py:114-115 | retention_rate_pct is NULL exactly when churn_rate_pct is, and otherwise they sum to 100. |
| OptimizedChurn.MonthRow | payment_intelligence/etl_logic.py:101-115 | A monthly_stats row carries its month and counts the month's windowed subscriptions. |
| OptimizedChurn.RowIsMonth | payment_intelligence/etl_logic.py:101-117 | Every reported row is the row of a start month of some subscription in the 12-month window. |
| OptimizedChurn.RowFacts | payment_intelligence/etl_logic.py:101-115 | In every reported row: 0 <= churned <= total_subs with total_subs > 0; churn rate = the exact Cancelled percentage; churn + retention = 100; both rates in [0, 100]; the month is within 12 months of today. |
| OptimizedChurn.MonthlyStatsUnique | payment_intelligence/etl_logic.py:101-108 | One row per start month. |
| OptimizedChurn.Ordered | payment_intelligence/etl_logic.py:110-117 | The output is a permutation of the monthly rows, in strictly ascending cohort month. |
| OptimizedChurn.MonthReported | payment_intelligence/etl_logic.py:105-108 | Every windowed subscription's start month is reported. |
| OptimizedChurn.TotalsAddUp | payment_intelligence/etl_logic.py:101-112 | The total_subs column sums to the number of windowed subscriptions: the months partition the window. |
| OptimizedAcceptance.PaymentAcceptanceRateByGateway | payment_intelligence/etl_logic.py:120-138 | At most 50 rows (LIMIT 50), drawn from the rows of the pairs that pass HAVING, ordered by acceptance descending with NULLS LAST. RowIsPair and PairReported state which pairs those are. |
| OptimizedAcceptance.PairRow | payment_intelligence/etl_logic.py:123-134 | A group's row shows the raw, nullable country and counts the group's attempts over all time. |
| OptimizedAcceptance.RowIsPair | payment_intelligence/etl_logic.py:122-138 | Every reported row is the row of a non-empty raw (gateway, country) group with at least min_transactions attempts. |
| OptimizedAcceptance.PairBounds | payment_intelligence/etl_logic.py:127-132 | For a non-empty group the three rates are present, each lies in [0, 100], and they sum to at most 100. |
| OptimizedAcceptance.RowBounds | payment_intelligence/etl_logic.py:122-138 | The same bounds for every reported row. |
| OptimizedAcceptance.Ordered | payment_intelligence/etl_logic.py:136-137 | At most 50 rows, ordered by acceptance rate descending. |
| OptimizedAcceptance.PairQualifies | payment_intelligence/etl_logic.py:134-135 | Every group with at least min_transactions attempts passes HAVING. |
| OptimizedAcceptance.PairReported | payment_intelligence/etl_logic.py:134-137 | Every group with at least min_transactions attempts is reported, unless LIMIT 50 is full with rows accepting at least as well. |
| OptimizedFriction.DetectGatewayFriction | payment_intelligence/etl_logic.py:140-171 | At most 100 rows (LIMIT 100), drawn from the rows of the pairs with at least 30 attempts, ordered by variance ascending with NULLS LAST. RowFacts, VariancesCancel and AllReported state what the rows hold. |
| OptimizedFriction.PairStats | payment_intelligence/etl_logic.py:143-153 | A gateway_stats row shows the raw country, the attempts and the set of the group's error codes. |
| OptimizedFriction.Baseline | payment_intelligence/etl_logic.py:155-158 | AVG(acceptance_rate_pct) is NULL exactly when no qualifying pair has a rate. |
| OptimizedFriction.BaselineIsMean | payment_intelligence/etl_logic.py:155-158 | The baseline is NULL exactly when no pair qualifies. Otherwise it is the unweighted mean of the pairs' rates. |
| OptimizedFriction.Classify | payment_intelligence/etl_logic.py:163-167 | High Friction exactly when variance < -10. Medium Friction exactly when -10 <= variance < -5. Low Friction otherwise, including a NULL variance. |
| OptimizedFriction.Difference | payment_intelligence/etl_logic.py:162 | The variance is present exactly when the rate and the baseline are, and then variance + baseline = rate. |
| OptimizedFriction.AgainstBaseline | payment_intelligence/etl_logic.py:159-167 | The output row keeps the gateway_stats columns (`g.*`) and adds the baseline, the variance and the flag classified from that variance. |
| OptimizedFriction.StatsRowIsPair | payment_intelligence/etl_logic.py:143-154 | Every gateway_stats row is a group with at least 30 attempts. Its rate is the exact Success percentage, in [0, 100]. |
| OptimizedFriction.VariancesCancel | payment_intelligence/etl_logic.py:155-168 | The variances from the baseline of all qualifying pairs sum to 0. |
| OptimizedFriction.SomeLowFriction | payment_intelligence/etl_logic.py:155-168 | When some pair qualifies, some pair has a non-negative variance and is flagged Low Friction. |
| OptimizedFriction.RowFacts | payment_intelligence/etl_logic.py:143-170 | Every reported row is a qualifying pair's row against the baseline. Its rate and the baseline are present and lie in [0, 100]. The variance is present, and variance + baseline = rate. |
| OptimizedFriction.BaselineBounds | payment_intelligence/etl_logic.py:148-158 | When some pair qualifies, the baseline is present and lies in [0, 100]. |
| OptimizedFriction.Ordered | payment_intelligence/etl_logic.py:169-170 | At most 100 rows, ordered by variance ascending. |
| OptimizedFriction.AllReported | payment_intelligence/etl_logic.py:159-170 | With at most 100 qualifying pairs, the output is a permutation of all of them, and its variances sum to 0. |
| OptimizedRetention.CohortRetentionAnalysis | payment_intelligence/etl_logic.py:173-205 | A permutation of the (cohort, offset) cells, ordered by cohort descending, then offset ascending. RowIsCell, CellReported and FirstRowOfCohort state what the rows hold. |
| OptimizedRetention.JoinSubsHas | payment_intelligence/etl_logic.py:189-190 | Every subscription joins every cohort entry of its user. |
| OptimizedRetention.JoinSubsSource | payment_intelligence/etl_logic.py:189-190 | Every sub_months row comes from a subscription and a cohort entry of the same user. |
| OptimizedRetention.FirstCellPresent | payment_intelligence/etl_logic.py:197-200 | A cohort's smallest present offset is a non-empty cell with a positive distinct-user count. |
| OptimizedRetention.CellRow | payment_intelligence/etl_logic.py:193-200 | A cell's row carries its cohort and offset, and retained_users is the cell's distinct user count. |
| OptimizedRetention.PlacementSource | payment_intelligence/etl_logic.py:176-202 | Every counted row comes from an Active or Cancelled subscription of a user who has a subscription started within the window. Its offset is their start-month difference, in [0, 12]. |
| OptimizedRetention.PlacementPresent | payment_intelligence/etl_logic.py:183-202 | Every such pair of subscriptions with an offset in [0, 12] is counted. |
| OptimizedRetention.RowIsCell | payment_intelligence/etl_logic.py:193-204 | Every reported row is the row of a non-empty (cohort, offset) cell. |
| OptimizedRetention.RowFacts | payment_intelligence/etl_logic.py:176-203 | For every reported row: the offset lies in [0, 12]; the cohort lies in the window; retained_users > 0; the rate is retained over the count at the cohort's smallest present offset (which is positive), and it is positive. |
| OptimizedRetention.AllCellsUnique | payment_intelligence/etl_logic.py:203 | One row per (cohort, offset). |
| OptimizedRetention.Ordered | payment_intelligence/etl_logic.py:193-204 | The output is a permutation of the cells' rows, ordered by cohort descending, then offset strictly ascending. |
| OptimizedRetention.CellRowReported | payment_intelligence/etl_logic.py:193-204 | Every non-empty cell is reported. |
| OptimizedRetention.CellReported | payment_intelligence/etl_logic.py:176-204 | Every qualifying pair of subscriptions has its (cohort, offset) cell reported. |
| OptimizedRetention.FirstCellRate | payment_intelligence/etl_logic.py:196-200 | The cohort's first present offset has rate exactly 100. |
| OptimizedRetention.OpensAtFirstCell | payment_intelligence/etl_logic.py:197-204 | The first reported row of each cohort is that cohort's smallest present offset. |
| OptimizedRetention.FirstRowOfCohort | payment_intelligence/etl_logic.py:196-204 | The first reported row of each cohort has retention_rate_pct exactly 100. |
| OptimizedSankey.SankeyData | payment_intelligence/etl_logic.py:207-237 | One row per gateway in scope, one per (gateway, outcome) in scope, and the Authorized -> Settled row, which is always present. |
| OptimizedSankey.Outcome | payment_intelligence/etl_logic.py:222-225 | A gateway edge's target is 'Authorized' exactly for Success, and 'Declined' otherwise. There is no other target. |
| OptimizedSankey.Rows | payment_intelligence/etl_logic.py:211-237 | Every edge falls into one of three kinds. An Attempt edge has a positive value and a gateway used in scope. A gateway edge has a positive value, an Authorized or Declined target, and a transaction of that gateway and outcome. The third kind is the Settled edge. |
| OptimizedSankey.AttemptReported | payment_intelligence/etl_logic.py:213-216 | Every gateway in scope has an Attempt edge with a positive value. |
| OptimizedSankey.OutcomeReported | payment_intelligence/etl_logic.py:221-229 | Every (gateway, outcome) in scope has an edge with a positive value. |
| OptimizedSankey.SettledReported | payment_intelligence/etl_logic.py:234-236 | The Authorized → Settled edge is present, and its value is the Success count in scope. |
| OptimizedSankey.AttemptConservation | payment_intelligence/etl_logic.py:213-216 | The Attempt edges sum to the number of transactions in scope. |
| OptimizedSankey.OutcomeConservation | payment_intelligence/etl_logic.py:221-229 | The gateway → {Authorized, Declined} edges sum to the number of transactions in scope. |
| OptimizedSankey.GatewayConservation | payment_intelligence/etl_logic.py:213-236 | For each gateway, its outgoing edges sum to its Attempt edge's value. The gateway → Authorized edges sum to the Settled edge's value. |
| OptimizedSankey.AttemptOutflow | payment_intelligence/etl_logic.py:211-237 | Over the returned rows, the edges leaving Attempt sum to the number of transactions in scope, provided no gateway is itself named "Attempt". |
| OptimizedSankey.GatewayFlow | payment_intelligence/etl_logic.py:211-237 | Over the returned rows, for every gateway not named like a diagram node, the flow into the gateway equals the flow out of it, and both are its number of transactions in scope. |
| OptimizedSankey.AuthorizedFlow | payment_intelligence/etl_logic.py:221-237 | Over the returned rows, the edges into Authorized sum to the Authorized -> Settled value, which is the only edge leaving Authorized, provided no gateway is itself named "Authorized". |
| OptimizedReconciliation.Minus | payment_intelligence/etl_logic.py:263 | The variance is present exactly when both sides are, and then variance + booked = cash. |
| OptimizedReconciliation.VariancePct | payment_intelligence/etl_logic.py:264 | variance_pct is NULL exactly when either side is NULL or booked is 0. |
| OptimizedReconciliation.CashLookup | payment_intelligence/etl_logic.py:242-250 | A month has no monthly_cash row exactly when no Success transaction falls in it. |
| OptimizedReconciliation.RevenueLookup | payment_intelligence/etl_logic.py:251-258 | A month has no monthly_revenue row exactly when no Active subscription started in it. |
| OptimizedReconciliation.CashSide | payment_intelligence/etl_logic.py:242-265 | A joined cash side, not coalesced, is the month's Success amount sum and count, and NULL when there is none. |
| OptimizedReconciliation.RevenueSide | payment_intelligence/etl_logic.py:251-262 | A joined revenue side is the month's Active mrr sum, and NULL when there is none. |
| OptimizedReconciliation.JoinedRowIsMonth | payment_intelligence/etl_logic.py:259-267 | Every FULL OUTER JOIN row is its month's reference reconciliation, and the month has activity on at least one side. |
| OptimizedReconciliation.AllMonthsExact | payment_intelligence/etl_logic.py:259-267 | Every row before ORDER BY is its month's reference reconciliation. |
| OptimizedReconciliation.MonthReported | payment_intelligence/etl_logic.py:266-267 | A month present on one side only is still reported. |
| OptimizedReconciliation.MonthFigures | payment_intelligence/etl_logic.py:242-265 | cash_collected is NULL exactly when the month has no Success transaction, and it is their amount sum otherwise. booked_revenue is NULL exactly when no Active subscription started, and it is their mrr sum otherwise. variance is present exactly when both are, and equals cash - booked. variance_pct is NULL exactly when the variance is NULL or booked is 0. |
| OptimizedReconciliation.AllMonthsUnique | payment_intelligence/etl_logic.py:260-267 | One row per month. |
| OptimizedReconciliation.ReconOrder | payment_intelligence/etl_logic.py:268-269 | At most 12 rows, in strictly descending month. |
| OptimizedReconciliation.LatestMonths | payment_intelligence/etl_logic.py:266-269 | Every active month is reported, unless LIMIT 12 is full with strictly later months. |

## Left out

- DuckDB itself is not modelled; the loaded tables are given sequences. Left out:
  - the connection and `read_csv_auto` type inference;
  - the casts in the root loader's SELECTs;
  - `CREATE INDEX` statements;
  - `SET threads` / `SET memory_limit`;
  - `close`, `__del__` and the context-manager methods.
  
  A CSV file is a present or absent sequence of records.
- The row-count queries and the `print` calls in the root loader (src/payment_intelligence/etl_logic.py:105-113) are output only.
- `validate_synthetic_patterns` prints diagnostics over the other metrics, so it is left out.
- ROUND(.., 2), ROUND(.., 1), `::FLOAT` and `::DECIMAL` (rounding and floating point) are left out. Every rate is the exact real value before rounding.
- SuiteAcceptance.Ordered: states the ordering on the exact acceptance rate. The source sorts on the rounded `acceptance_rate_pct` column, whose ties can differ.
- SuiteFriction.Ordered: states the ordering on the exact variance. The source sorts on the rounded `variance_from_baseline`.
- SuiteFriction.Classify: compares the exact rate with the exact baseline. The source compares the pair rate rounded to two places with the unrounded baseline.
- Ties in ORDER BY are broken by one fixed deterministic order, because DuckDB leaves the order of equal keys unspecified. The contracts therefore state only sortedness, the permutation, and which rows a LIMIT keeps.
- `STRING_AGG(DISTINCT error_code, ', ')` is modelled as the set of distinct codes. Its element order and its text form are unspecified.
- OptimizedSankey.Rows: states which rows the Sankey query returns, but no order, because that query has no ORDER BY.
- The `country_filter` is modelled as exact equality on the country column. The SQL text built by f-string interpolation, and the injection it allows, are left out.
- `CURRENT_DATE` is the parameter `today`. The clock is not modelled.
- Timestamps are dates. `tx_date` and `start_date` are cast or read as DATE.
- Statuses are the strings the queries compare against. No label set is assumed, and unknown labels are allowed.
- The exception types are modelled as result values, not as Python exceptions. Messages are left out, except the counts carried by the optimized loader's ValueError.
- In the optimized loader the three CREATE TABLE statements are one multi-statement execute. The model lets each statement that succeeds stay in effect before a later one fails, as DuckDB runs them one by one.
- OptimizedExecutive.AverageValue: the average is of the last 30 days only, because `avg_tx` is computed inside `recent_txs`. The root copy's average is over all time.
- `x or 0` in the optimized executive metrics is modelled as "NULL reads 0". A 0 already reads 0, so the two agree.

In these places the code does something other than what its own docstrings, column names or the other copy lead one to expect; the model follows the code:

- The root `load_data` (src/payment_intelligence/etl_logic.py:44-103) has no guard, while the optimized copy returns at once when loaded (payment_intelligence/etl_logic.py:16-17). A second root call fails on CREATE TABLE users, and a failed call keeps the tables it created (SuiteEngine.LoadAgainFails, SuiteEngine.LoadPartial). Only the optimized copy is idempotent (OptimizedEngine.LoadIdempotent).
- The root `cohort_retention_analysis` docstring promises month-over-month retention for each signup cohort (src/payment_intelligence/etl_logic.py:303-307). But `months_since_signup` is DATE_DIFF from the signup date to CURRENT_DATE, so a cohort has a single offset and at most one row (SuiteRetention.AllCellsUnique, SuiteRetention.RowShape).
- The root acceptance query selects `COALESCE(country, 'Unknown') as country` (src/payment_intelligence/etl_logic.py:178), but its GROUP BY `gateway, country` binds to the raw column, not to the alias. So NULL and a literal 'Unknown' are separate groups that both display as 'Unknown' (SuiteAcceptance.RowIsQualifyingPair).
- The optimized `retention_rate_pct` (payment_intelligence/etl_logic.py:196-200) is normalised to the cohort's smallest present offset, not to its size. So a later offset can exceed 100 percent (OptimizedRetention.RowFacts states only positivity).
- The optimized `churn_rate` key (payment_intelligence/etl_logic.py:75-95) counts 'Cancelled' over all subscriptions. The root copy's key of the same name counts over the subscriptions that started in the current month (src/payment_intelligence/etl_logic.py:394-411) (OptimizedExecutive.ChurnRate).
