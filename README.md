# stakeholder-theory-toy: the round-resolution engine in Dafny

The program is a turn-based market game. A `Market` holds a list of firms and two pools: the
workers still for hire and the users still buying. Each round, every firm's owner enters a
decision record (`Firm::play_round`). The market then resolves the round in five stages, in a
fixed order (`Market::end_round`):

1. `sell_goods` ranks the firms by usefulness and lets each sell to the remaining users.
2. `pay_employees` debits wages and drops every firm that cannot pay them.
3. `set_share_prices` prices shares from funds, profit trend and promotion.
4. `sell_shares` sells the shares on offer, then recomputes the profit trend (`calc_profit_trend`).
5. `recruit_employees` ranks the firms by wage and lets each hire from the remaining workers.

Every Rust method here takes the market or firm by value and returns the new one. So `Market`
and `Firm` are datatypes. Each stage is a `method` over a `Market` value whose loop follows the
source's loop: the clearing stages overwrite `firms[i]` in rank order; the other stages push
onto a new list. Each method is proved equal to a function stating the stage's outcome, and the
properties are lemmas about those functions.

Modules, one per file:

- `Arith` (arith.dfy): sums, minimum, Rust's truncating signed division, the `as u32` wrap.
- `Firms` (firms.dfy): the firm record, the decision record, `Firm::play_round`,
  `calc_profit_trend` and the share price.
- `Ranking` (ranking.dfy): the order a stable `sort_by` on a descending key leaves the numbered
  firms in, and its uniqueness.
- `Allocation` (allocation.dfy): a pool handed out by rank, shared by both clearing stages.
- `Clearing` (clearing.dfy): a clearing stage as ranking plus allocation plus write-back at each
  firm's own index.
- `Markets` (markets.dfy): the market, its construction, `Market::play_round`, the five stages
  and `Market::end_round`.
- `Rounds` (rounds.dfy): whole rounds and the main loop.

Integers are unbounded `nat`/`int`. Where the source's `u32` arithmetic is modelled at all
(the share price), it is that of a release build, where overflow checks are off and `u32`
addition wraps; a debug build panics there instead. The one place where this changes the
outcome of ordinary play is reported under Findings.

## Model

| member | source | states |
|---|---|---|
| Firms.Played | src/main.rs:293-297 | A decision is accepted exactly when servings > 0, the wage percentage is at most 100, the two wage shares sum to 100 and the hire count is non-zero. The first failing check, in the source's order, names the error (three `assert!`s, then the division by zero at line 297). An accepted decision gives `Derive`. |
| Firms.PlayRound | src/main.rs:283-304 | The checks and the six field assignments in the source's order give exactly `Played`. |
| Firms.Derive | src/main.rs:297-303 | Only the six round fields change. Funds, headcount, history, name and shares are untouched. Promotion is employees times the pumping share. |
| Firms.DeriveBounds | src/main.rs:297-301 | budget = funds * pct / 100 is at most the funds. wage * hires <= budget < wage * hires + hires, so the wage is the largest affordable per-head wage. usefulness * servings is within one serving of employees * share. Production plus promotion never exceeds 100 * employees. |
| Firms.Wage | src/main.rs:297 | The truncated per-head wage: wage * hires <= funds * pct / 100 <= funds, within one wage step. |
| Firms.UsefulnessPerServing | src/main.rs:299 | Truncated quotient: u * servings <= employees * share < u * servings + servings. |
| Firms.SplitWithinWorkforce | src/main.rs:299-301 | With shares summing to 100, usefulness * servings + promotion <= 100 * employees. |
| Firms.ProfitTrend | src/main.rs:347-359 | The mean of the last one, two or three fund changes telescopes. The trend is (current - prev[k-1]) / k, truncated toward zero, with k = min(history length, 3). With one entry it is current - prev[0]. |
| Firms.ProfitTrendReadsThree | src/main.rs:347-359 | Two histories that agree on their first min(length, 3) entries give the same trend. |
| Arith.TruncDiv | src/main.rs:352-356 | Rust's signed `/`: for a >= 0 the quotient is the floor; for a <= 0 it is the ceiling, never below the true quotient. |
| Firms.SharePrice | src/main.rs:199 | The corrected price: the total (funds + trend + boost) in whole hundreds, and 0 when the total is not positive. |
| Firms.SharePriceExact | src/main.rs:199 | With a non-negative trend the price is exactly (funds + trend + boost) / 100. |
| Firms.SharePriceMonotone | src/main.rs:199 | A lower profit trend never gives a higher price. |
| Arith.AsU32 | src/main.rs:199 | `as u32` and release-build (wrapping) `u32` addition: the value modulo 2^32. Values in range are unchanged; a negative value in i32 range becomes value + 2^32. |
| Firms.SharePriceAsWritten | src/main.rs:199 | The source's formula with the `as u32` cast and release-build (wrapping) sums: always below 2^32 / 100 + 1. |
| Firms.SharePriceAgrees | src/main.rs:199 | Wherever the true total of funds, trend and promotion lies in [0, 2^32), the source's release-build price equals `SharePrice`, even when an intermediate sum wraps. |
| Firms.FallingTrendRaisesPriceAsWritten | src/main.rs:199 | As written, funds 0, trend -1, boost 0 prices a share at 42949672, while trend 0 prices it at 0. The corrected price is 0. |
| Markets.NewMarket | src/main.rs:49-59 | No firms, the given parameters, and both pools full (`Valid`). |
| Markets.NewFirm | src/main.rs:73-100 | Exactly one firm is appended and the others are kept. It has the given name, shares and funds; every other field is zero or empty. Nothing else in the market changes. |
| Markets.Decided | src/main.rs:102-112 | An accepted round keeps one firm per decision. |
| Markets.DecidedAccepts | src/main.rs:107-110 | A round is accepted if and only if every decision in it is accepted. |
| Markets.DecidedApplies | src/main.rs:107-110 | In an accepted round, firm i becomes `Derive(firms[i], decisions[i])`, in list order. |
| Markets.DecidedFirstError | src/main.rs:107-110 | A rejected round reports the error of the first rejected decision; all decisions before it are accepted. |
| Markets.PrefixRejected | src/main.rs:107-110 | A rejection among the first n decisions decides the outcome of the whole round. |
| Markets.PlayRound | src/main.rs:102-112 | The loop applying `Firm::play_round` firm by firm gives `Decided`, with the other market fields unchanged. |
| Markets.SellTo | src/main.rs:152-168 | One turn of `sell_goods`: the history entry, then the two branches. The firm at index i becomes `Serve` with the units granted from the users left; those units leave the pool. |
| Markets.SellGoods | src/main.rs:141-172 | The rank-order loop gives `GoodsCleared`: every firm cleared at its own index, and `users_left` reset to `users` on exit. |
| Markets.GoodsCleared | src/main.rs:141-172 | Firm count kept; every firm has a funds entry on record afterwards. |
| Markets.UnitsSold | src/main.rs:151-168 | One entry per firm in serving order; in total at most the users left at entry. |
| Markets.GoodsServed | src/main.rs:151-168 | For the firm served at position p: its funds at entry are prepended to its history. If useful enough, it sells min(servings, users the earlier firms left), gains 10 per unit, and its fulfillment becomes usefulness times units. Otherwise it sells 0 and keeps its funds and fulfillment. Nothing else about it changes. |
| Markets.GoodsStageTotals | src/main.rs:149-170 | Units sold total exactly min(users left at entry, what eligible firms offer). The user pool is refilled. Workers and parameters are unchanged. Firm count, positions and names are kept. |
| Markets.GoodsSoldOut | src/main.rs:156-164 | Once the earlier firms have used up the users, every later firm sells 0 and its funds do not change. |
| Markets.GoodsShortfall | src/main.rs:160-164 | A useful enough firm that sells fewer than its servings leaves nothing for any firm served after it. |
| Clearing.ServingOrderIsStableSort | src/main.rs:149-150 | An order is the serving order if and only if it lists every index once, with larger keys first and equal keys in list order (usefulness for goods, wage for labour, lines 233-234). |
| Ranking.RankingUnique | src/main.rs:150 | Two orders that both list every index once, sorted by descending key with ties by index, are equal. Any stable sort gives `Rank`. |
| Ranking.Rank | src/main.rs:149-150 | The order built by insertion lists every index once, sorted by descending key with ties in list order. |
| Clearing.ClearAt | src/main.rs:151-168 | In a clearing stage, the firm at serving position p is granted its request capped by what earlier firms left, or 0 if below the floor. Its entry in the result is `Serve` with that grant. |
| Clearing.Serve | src/main.rs:152-167 | One firm's outcome in its clearing turn. It keeps the name, shares, wage, usefulness, servings and hiring target. Selling goods prepends the funds held to the history and never lowers the funds (src/main.rs:152, 158, 163). Hiring leaves funds and history alone (src/main.rs:238-251). The per-branch outcome is stated in `GoodsServed` and `LabourServed`. |
| Clearing.Clear | src/main.rs:147-168 | A whole clearing stage's firm list: the firm count is kept. The per-firm outcome is stated in `ClearAt` and `ClearEach`. |
| Clearing.ClearEach | src/main.rs:151-168 | Every firm is served at exactly one position of the serving order, and its result is its own outcome there. |
| Clearing.ClearKeepsNames | src/main.rs:152 | Clearing keeps each firm's name at its index. Goods clearing prepends each firm's funds to its history; labour clearing leaves the history alone. |
| Clearing.PartialStep | src/main.rs:151-168 | Turn p of a clearing loop sees the firm it serves unchanged. It changes only that firm, and it takes from the pool exactly the grant. |
| Clearing.SettleStep | src/main.rs:152-168 | Writing one more outcome back changes only that firm's index. |
| Clearing.GrantsTotal | src/main.rs:151-168 | A clearing stage hands out exactly min(pool, eligible demand). |
| Clearing.GrantsExhausted | src/main.rs:159-164 | Once the pool is used up, every later grant is 0. |
| Clearing.GrantsShortfall | src/main.rs:160-164 | An eligible firm granted less than its request empties the pool for all later firms. |
| Allocation.Grant | src/main.rs:156-164 | A grant never exceeds what is left or what is asked, and it is one of the two. |
| Allocation.Allocate | src/main.rs:151-168 | One grant per claim; in total at most the pool. |
| Allocation.AllocateAt | src/main.rs:156-164 | Claim p is granted its request, capped by what the claims before it left. |
| Allocation.AllocateTotal | src/main.rs:156-164 | Total granted is min(pool, total requested). |
| Allocation.AllocateExhausted | src/main.rs:159-164 | After the pool is used up, later claims get 0. |
| Allocation.AllocateShortfall | src/main.rs:160-164 | A claim granted less than asked is followed only by zero grants. |
| Markets.Paid | src/main.rs:181-184 | A solvent firm's funds drop by exactly wage * employees; nothing else changes. |
| Markets.Survivors | src/main.rs:178-190 | No more firms than before; a recorded history stays recorded. |
| Markets.WagesPaid | src/main.rs:174-191 | The market after pay_employees: firms that had a funds record keep one. Which firms survive, and with what funds, is stated in `SolventIndicesExact` and `SurvivorsAreSolvent`. |
| Markets.PayEmployees | src/main.rs:174-191 | The loop pushing paid firms gives `WagesPaid`. |
| Markets.SolventIndicesExact | src/main.rs:183-188 | The kept indices are exactly the firms with wage * employees <= funds, in increasing order. Each kept firm is solvent, and every solvent firm is kept. |
| Markets.SurvivorsAreSolvent | src/main.rs:180-189 | The survivors are, in order, `Paid` of the firms at the solvent indices. |
| Markets.SharesPriced | src/main.rs:193-203 | The market after set_share_prices: firm count kept, and firms with a funds record keep it. The per-firm price is stated in `SetSharePrices`. |
| Markets.SetSharePrices | src/main.rs:193-203 | Each firm's `share_price` becomes `SharePrice` of its funds, trend and boost. Nothing else in the firm or the market changes, and the list keeps its length and order. |
| Markets.SoldShares | src/main.rs:211-223 | k = min(shares to sell, shares remaining). Remaining shares drop by k, funds rise by price * k, and the trend is recomputed from the new funds and the history. Nothing else changes. |
| Markets.SharesSold | src/main.rs:205-226 | No firm is removed; firm i becomes `SoldShares(firms[i])`; the market's other fields are unchanged. |
| Markets.SellShares | src/main.rs:205-226 | The loop's two branches give `SharesSold`. |
| Markets.HireFor | src/main.rs:236-251 | One turn of `recruit_employees`: the firm at index i becomes `Serve` with the workers granted from those left, who leave the pool. |
| Markets.LabourCleared | src/main.rs:228-255 | Firm count kept. The per-firm outcome is stated in `LabourServed`, and the totals in `LabourStageTotals`. |
| Markets.RecruitEmployees | src/main.rs:228-255 | The rank-order loop gives `LabourCleared`, with `workers_left` reset to `labor_supply` on exit. |
| Markets.WorkersHired | src/main.rs:235-252 | One entry per firm in serving order; in total at most the workers left at entry. |
| Markets.LabourServed | src/main.rs:235-252 | For the firm served at position p: a firm paying at least the minimum wage gets employees = min(number to hire, workers the earlier firms left), and fulfillment = wage times that. A firm below the minimum wage is unchanged. Only those two fields ever change. |
| Markets.LabourStageTotals | src/main.rs:233-253 | Hires total exactly min(workers left at entry, what eligible firms want). The worker pool is refilled. Users and parameters are unchanged. Positions and names are kept. |
| Markets.LabourExhausted | src/main.rs:239-247 | Once the workers are used up, later firms hire nobody. |
| Markets.LabourShortfall | src/main.rs:243-247 | An eligible firm that hires fewer than it wants leaves no workers for later firms. |
| Markets.EndRound | src/main.rs:114-123 | The five stages in the source's order give `RoundResolved`. |
| Markets.RoundResolved | src/main.rs:114-123 | A round never adds a firm. |
| Rounds.RoundKeepsValid | src/main.rs:114-123 | After `end_round` both pools are full. The market's parameters are unchanged and no firm is added. |
| Rounds.RoundSurvivors | src/main.rs:114-123 | The firms left after a round are, in their original order, those solvent after goods were sold. Each keeps its name, and its funds at the start of the round head its history. |
| Rounds.RoundKeepsMarket | src/main.rs:15-16 | A completed round (`play_round` then `end_round`) leaves the market valid, with its parameters, and with no more firms. |
| Rounds.IterateStopsAtError | src/main.rs:14-17 | Once a round is rejected, later rounds change nothing: the run ends with that error. |
| Rounds.IterateKeeps | src/main.rs:14-17 | If every step keeps the market valid, keeps its parameters and adds no firm, so does every run of steps. |
| Rounds.RunKeepsValid | src/main.rs:14-17 | However many rounds are played, the parameters are kept and no firm is added. After at least one round, both pools are full. |
| Rounds.PlayAndResolve | src/main.rs:15-16 | One pass of the loop body gives `Round`. |
| Rounds.RunRounds | src/main.rs:13-17 | The loop, stopped after n rounds or at the first rejected decision, gives `Run`. |
| Rounds.DecisionsFor | src/main.rs:285-291 | One decision record per firm, in list order, each answered with the whole market in view. |

## Left out

- Reading the decision record from stdin (`get_input`, `get_firm_inputs`, src/main.rs:285-291 and 327-345) is left out. `Firm::play_round` takes the record as a parameter. The main loop takes a function `decide(round, market, i)` standing for the owners' answers: the answer for the firm at position `i` may depend on the round and on the whole market displayed at the start of the round. An answer that depends on what the owners of earlier firms typed in the same round is not expressed.
- Firms.Played: keeps the wage-shares check even though `get_firm_inputs` always sets the pumping share to 100 minus the usefulness share, so from real input that check never fails. A usefulness share above 100 makes that subtraction underflow there; input handling is not part of this model.
- Every `assert!` failure and the division by zero at src/main.rs:297 abort the process. Here they are `Err` results, and a rejected round ends the run with that error.
- Display and printing (`display`, `display_firms`, `Firm::display`, every `println!`) are left out; they only present state.
- Rounds.RunRounds: the source's loop never ends, because `done` is never set. The model plays a given number of rounds. The setup in `main` (src/main.rs:6-12) is not modelled beyond `NewMarket` and `NewFirm`.
- Rounds.Round and Rounds.Run carry no contract of their own. Their properties are the lemmas `RoundKeepsMarket`, `RunKeepsValid` and `IterateStopsAtError`.
- The strategy comments (src/main.rs:20-47) have no code behind them.
- `u32` and `i32` overflow is not modelled: every `u32` field is an unbounded `nat` and the profit trend an unbounded `int`. The `as i32` casts in `calc_profit_trend` and the `u32` products (usefulness times servings, 10 times servings, wage times employees, price times shares) are exact. The `as u32` cast of a negative trend is the exception; see Findings.
- Markets.SetSharePrices: it, and therefore Markets.EndRound, Markets.RoundResolved, Rounds.Round and Rounds.Run, use the corrected price `SharePrice`, which is 0 for a negative total. The source as written differs whenever funds + trend + promotion is negative (a release build then prices the share near 2^32 / 100, see Findings), and a debug build panics with an overflow whenever the trend is negative and that total is not.
- The build profile modelled is a release build (overflow checks off). `Firms.SharePriceAsWritten` and `Arith.AsU32` follow it; the debug build's overflow panics in the `u32` sums of src/main.rs:199 are not modelled.
- Markets.SellShares: requires every firm to have a funds history. The source indexes `previous_funds[0]` and would panic on an empty history. `end_round` never reaches that case, because `sell_goods` records every firm's funds first (`GoodsCleared` ensures it).
- Markets.SharesSold: requires a funds history, for the same reason as `SellShares`.
- Markets.Decided: the first-error property is stated separately in `DecidedFirstError`, and the per-firm result in `DecidedApplies`.
- Three details of the source that are easy to misread; the model follows the source:
  - The user and worker pools are reset when their stage ends (src/main.rs:170, 253), not when it starts. A stage therefore uses the pool it is entered with, and `Valid` (both pools full) holds between stages.
  - A firm below the usefulness floor keeps its previous user fulfillment (src/main.rs:167), rather than getting zero.
  - Every firm, eligible or not, has its funds prepended to its history (src/main.rs:152).

## Findings

| source | as written | input that shows it | evidently intended | confidence | as-written member | corrected member |
|---|---|---|---|---|---|---|
| src/main.rs:199 | `firm.profit_trend as u32` reinterprets a negative trend as 2^32 plus the trend, so when funds + trend + boost < 0 a falling trend gives a huge share price | current_funds 0, profit_trend -1, share_market_boost 0: price 42949672, while a trend of 0 gives price 0 | the price is the total of funds, trend and promotion in hundreds, so a lower trend never gives a higher price (0 when the total is negative) | not executed | Firms.FallingTrendRaisesPriceAsWritten (on Firms.SharePriceAsWritten) | Firms.SharePriceMonotone (on Firms.SharePrice, used by Markets.SetSharePrices) |
