# A verified model of the table-tennis bot

The bot keeps score for table-tennis groups on Telegram: players register matches, confirm or undo them, and the bot
recomputes ratings from the stored history. This project models the parts of it in which state, arithmetic or several
handlers meet, and proves what they promise.

- **Rating engines** (`pkg/rating`): `Rating`, `Elo`, `EloLaws`, `Volatility`, `GlickoUpdate`, `GlickoLaws`,
  `Periods`, `Glicko2`, `GlickoPeriod`, `Glicko2Engine`, `EnginesAgree`, `Leaderboard`. The modules whose names end in
  Laws, and `GlickoPeriod`, say what the functions the engines are proved against mean, in terms of the matches and
  the published numbers. Arithmetic is over exact reals. The mathematical functions are a parameter,
  `RealMath.Library`, of which the proofs use only `Lawful`: `exp` is positive, increasing, inverse to `ln` and turns
  sums into products; `sqrt` is defined by its square; powers of ten are positive, increasing, inverse for opposite
  exponents, and 10 for exponent 1. Go's map iteration is an arbitrary choice of the next key, so every result holds
  for every order. The engines are methods that update players in place, proved against functions on tables of values.
- **Ratings from stored history** (`pkg/handlers/rankings.go`, `pkg/store/memstore`): `StoreState`, `MemStore`,
  `History`, `Rankings`, `Credit`.
- **Match lifecycle** (`match.go`, `undo.go`, `periodic.go`): `Protocol` cuts every handler at its store calls and lets
  any number of them interleave, with admin status free to change between calls; `ProtocolProofs` proves safety over all
  runs, `ProtocolUndos` the same of undo requests, `ProtocolParity` what an interleaved run makes of a match's status.
  `Handlers` has the handlers as methods over the store, run one at a time; `UndoProtocol` proves what holds then.
  `HandlerLaws` says what each handler changes and when it changes nothing; the lemmas named Alone there and in
  `Handlers` connect the sequential handlers with the interleaved ones.
- **Interactive prompt** (`match_interactive.go`): `Strconv`, `QueryEscape` and `Header` are the printer and parser of
  the state tag, `Picker` the opponent picker, `Prompt` one prompt as a state machine on values, `PromptProofs` the
  theorems about its runs, `DraftTable` and `Callback` the same on mutable drafts and the table that holds them.
  `Overlap` cuts a callback at its click, its load and the draft's lock and lets callbacks overlap.
- **Nickname lookup** (`s21_nick_cache.go`, `match.go`): `RecencyList` is the cache as a sequence of entries,
  `NickCache` the map and linked elements that refine it, `Retention` what it keeps, `NickLookup` any number of
  processes sharing a durable layer and the identity service, `LookupLaws` when a lookup asks whom.
- **Ids and scores in text** (`pkg/validation`): `Validation`.

`Wrappers`, `Sorting`, `Sums` and `RealMath` are shared helpers. `dafny verify dfyconfig.toml` checks everything.

Strings are Go strings, one character a byte; a label with a character above 255 does not occur, and the header round
trips say so (`IsBytes`). Times and durations are integers counting nanoseconds. `fuel` bounds the root search of
Glicko-2, and every result that mentions it holds for every fuel.

## Findings

- That a match's status is the parity of its completed undos holds when handlers run one after another
  (`UndoProtocol.StatusIsParity`, `ProtocolParity.AloneParity`) and not always when they interleave. It holds of a run
  if and only if the number of stale writes to the match is even (`ProtocolParity.ParityIffStalesEven`): a stale write
  is a toggle of a status the match no longer has, or an approval written over UNDONE. `StaleConfirmRestores` there is
  a run with one toggle and one stale write, in which an old confirm tap writes APPROVED over a later UNDONE. The
  approval claims hold in every interleaving.
- A callback carries the text its message had when the button was clicked, and a handler that finds no draft restores it
  from that text. So a double click on Confirm registers two matches, even when the second tap is handled after the
  first registered and dropped the draft (`PromptProofs.DoubleClickRegistersTwice`, `Overlap.InTurnRegisterTwice`), and
  also when both load the draft before the first is dispatched (`Overlap.OverlappingRegisterTwice`). When the edit after
  a registration fails, the message keeps its Confirm button, and it registers again
  (`PromptProofs.LingeringRegistersAgain`). A tap that finds no draft registers if and only if it is the Confirm of the
  owner whose ready draft its text restores, and the store works (`PromptProofs.RegistersIff`). In general another match
  can be registered if and only if the table holds a draft, the message restores one, a tap is under way that, on the
  draft it loaded, registers or shows the prompt again, or a callback is still to be handled whose text restores a draft
  (`Overlap.NextRegistrationIff`). Cold restarts are unseen exactly by taps whose text restores what was lost
  (`PromptProofs.RestartUnseenIff`), and the message always restores the draft except after a page turn or Back while
  nobody is left to play against (`PromptProofs.DispatchMirrorsIff`).
- The search for a lower bracket end stops at once for every delta, not only in the branch that runs it
  (`Volatility.LowerEndAtOnce`).
- Every rating period of 106752 days or more overflows the int64 duration (`Periods.PeriodNanosExact`). The boundary
  loop stops if and only if the wrapped duration is positive (`Periods.AdvanceStopsIffPositive`), which at 106752 days
  it is not.
- The comment at the durable lifetime speaks of month-old labels. Because a durable row is stamped anew in the LRU, the
  bound on an answer is 37 days, and it is reached (`NickLookup.BoundIsReached`).
- The comment above the header expressions allows scores 0 to 9; the keyboard offers 0 to 7, and only those are
  registered when no tap on a lost draft carries an outdated text (`PromptProofs.OneRegistration`).

## Model

| member | source | states |
|---|---|---|
| EnginesAgree.Agreement | pkg/rating/glicko2.go:50-178 | ELO and Glicko-2 fail together with the same error, rate the same players, and report the same games, wins, losses, points, streak and last game, on every match list |
| EnginesAgree.PeriodOrderFree | pkg/rating/glicko2.go:75-120 | any two orders of a period's matches leave every player with the same mu, phi and sigma |
| EnginesAgree.UpdateOrderFree | pkg/rating/glicko2.go:188-256 | one player's update does not depend on the order of the opponents |
| EnginesAgree.FoldPeriodsStats | pkg/rating/glicko2.go:69-133 | the deferred bookkeeping over the periods is the match-by-match bookkeeping of the whole list |
| Glicko2Engine.RunPeriod | pkg/rating/glicko2.go:69-133 | a period's loops over the maps, in whatever order, amount to one simultaneous step from the pre-period states |
| Glicko2Engine.BucketMatches | pkg/rating/glicko2.go:75-103 | collects for every player exactly the opponents met, with their pre-period mu and phi, and one deferred update a match |
| Glicko2Engine.BucketMatch | pkg/rating/glicko2.go:76-95 | one match adds each player to the other's opponents |
| Glicko2Engine.UpdateActive | pkg/rating/glicko2.go:106-112 | every active player gets the update of their own pre-period state; nobody else changes |
| Glicko2Engine.InflateInactive | pkg/rating/glicko2.go:115-120 | every inactive player's phi becomes sqrt(phi^2 + sigma^2), nothing else changes |
| Glicko2Engine.RerateAll | pkg/rating/glicko2.go:106-120 | both loops together give everybody the result computed from pre-period states only |
| Glicko2Engine.ApplyMetaUpdates | pkg/rating/glicko2.go:123-125 | the deferred closures record the matches in order, for both players of each |
| Glicko2Engine.TrackBest | pkg/rating/glicko2.go:128-132 | the best rating is the larger of the old best and the new rating |
| Glicko2Engine.FinishPeriod | pkg/rating/glicko2.go:105-132 | the four loops of a period compose |
| Glicko2Engine.Get | pkg/rating/glicko2.go:59-66 | a player seen for the first time enters with the default state, others are untouched |
| Glicko2Engine.Player.constructor | pkg/rating/glicko2.go:38-45 | a new player's state |
| Glicko2Engine.Player.SetScaled | pkg/rating/glicko2.go:109-111 | mu, phi and sigma are replaced, the bookkeeping is kept |
| Glicko2Engine.Player.ApplyMeta | pkg/rating/glicko2.go:157-178 | one game is recorded, mu, phi and sigma are kept |
| Glicko2Engine.Compute | pkg/rating/glicko2.go:50-155 | the imperative engine computes the value-level ratings of the whole list, or the validation error |
| Glicko2Engine.RunPeriods | pkg/rating/glicko2.go:69-133 | periods are folded in chronological order |
| Glicko2Engine.ReportPlayers | pkg/rating/glicko2.go:136-154 | rating and deviation are reported on the public scale |
| GlickoPeriod.ActivePlayer | pkg/rating/glicko2.go:106-112 | a player with games in a period gets mu, phi and sigma of steps 3 to 8, against the opponents as the period found them |
| GlickoPeriod.RestingPlayer | pkg/rating/glicko2.go:115-120 | a player without games keeps mu and sigma, and phi^2 grows by sigma^2 |
| GlickoPeriod.Bookkeeping | pkg/rating/glicko2.go:123-132 | whoever was known or played has a row, with the statistics continued and the larger of the old best and the new rating |
| GlickoPeriod.OpponentsMet | pkg/rating/glicko2.go:76-95 | one opponent for every match of a player, the other one as rated before, with score 1 for a win, 0 for a loss and 1/2 for a draw |
| GlickoPeriod.SweepReported | pkg/rating/glicko2.go:69-155 | who wins every game of a period is reported higher afterwards, who loses every game lower; newcomers start at 1500 |
| GlickoPeriod.EvenMatch | pkg/rating/glicko2.go:188-256 | two players rated alike who meet once: one gains what the other loses, and they stay equally certain and volatile |
| GlickoPeriod.Reported | pkg/rating/glicko2.go:136-154 | the public scale is 173.7178 points to one, around 1500 |
| GlickoPeriod.BestIsHighest | pkg/rating/glicko2.go:128-132 | the best rating is the highest there was after any period, from 1500 up |
| GlickoUpdate.Glicko2Update | pkg/rating/glicko2.go:188-256 | steps 3 to 8 as written compute the update; it converged if and only if the bracket after `fuel` turns is within the tolerance, and always without opponents |
| GlickoUpdate.IterateSigma | pkg/rating/glicko2.go:212-243 | step 5 computes the new volatility and says whether the bracket after `fuel` turns is within the tolerance |
| GlickoUpdate.StepSizesBounded | pkg/rating/glicko2.go:245-255 | phi' is below phi* and below sqrt(v), and mu moves by no more than the size of delta |
| GlickoUpdate.CalmUpdate | pkg/rating/glicko2.go:223-243 | when delta^2 is at most phi^2 + v, sigma e^(-tau/2) <= sigma' <= sigma |
| GlickoUpdate.SurprisedUpdate | pkg/rating/glicko2.go:223-243 | otherwise sigma'^2 lies between sigma^2 and delta^2 - phi^2 - v |
| GlickoLaws.UpdateEquations | pkg/rating/glicko2.go:245-254 | 1/phi'^2 = 1/(phi^2 + sigma'^2) + 1/v, and the rating moves by the surplus divided by that precision |
| GlickoLaws.SweepMoves | pkg/rating/glicko2.go:249-255 | winning every game of a period raises mu, losing every game lowers it |
| GlickoLaws.ExpectationsComplement | pkg/rating/glicko2.go:262-264 | the expected scores of two players add up to 1 |
| GlickoLaws.ExpectationGrows | pkg/rating/glicko2.go:262-264 | a higher rating expects more |
| GlickoLaws.UncertainOpponentsCountLess | pkg/rating/glicko2.go:258-260 | g falls as the opponent's deviation grows |
| GlickoLaws.WeightSquared | pkg/rating/glicko2.go:258-260 | g^2 (1 + 3 phi^2 / pi^2) = 1 |
| GlickoLaws.OddsAre | pkg/rating/glicko2.go:262-264 | the odds against a player are e^(-g (mu - mu_j)) to 1 |
| GlickoLaws.ExpectedFollowsOdds | pkg/rating/glicko2.go:262-264 | the expected score is one share of those odds, with the weight g of the opponent |
| GlickoLaws.OneGame | pkg/rating/glicko2.go:190-208 | information and surplus of one game in closed form: g^2 y / (1 + y)^2 and g (s - 1/(1 + y)) at odds y |
| GlickoLaws.GamesAdd | pkg/rating/glicko2.go:190-208 | information and surplus add up over games |
| GlickoLaws.ObjectiveEquation | pkg/rating/glicko2.go:214-219 | f(x) + (x - a)/tau^2 = e^x (delta^2 - phi^2 - v - e^x) / (2 (phi^2 + v + e^x)^2) |
| GlickoLaws.VolatilitySolves | pkg/rating/glicko2.go:210-243 | the new volatility solves step 5: f has opposite signs at 2 ln(sigma') and at a point that is no more than 0.000001 away once the search has converged |
| GlickoUpdate.ExpectedScore | pkg/rating/glicko2.go:262-264 | the expected score is strictly between 0 and 1 |
| GlickoUpdate.SumInformation | pkg/rating/glicko2.go:190-195 | the loop of step 3 |
| GlickoUpdate.SumSurplus | pkg/rating/glicko2.go:203-208 | the loop of step 4 |
| Volatility.FindRoot | pkg/rating/glicko2.go:221-242 | the loop, cut off after `fuel` turns, computes the search from a straddling bracket and says whether it converged |
| Volatility.Iterate | pkg/rating/glicko2.go:234-241 | one turn of the loop |
| Volatility.SearchLowerEnd | pkg/rating/glicko2.go:226-230 | the search for a lower end, which never takes a turn |
| Volatility.StartValues | pkg/rating/glicko2.go:221-232 | the search starts at a with f(a); the other end is ln(delta^2 - phi^2 - v) where that is defined and else a - 1/2, with its value of f |
| Volatility.LowerEndAtOnce | pkg/rating/glicko2.go:214-230 | f(a - k tau) > k/tau - 1/2 for every k and every delta, so k stays 1 |
| Volatility.PullAboveMinusHalf | pkg/rating/glicko2.go:214-219 | the first term of f is above -1/2 however large delta is |
| Volatility.StartStraddles | pkg/rating/glicko2.go:221-232 | the starting bracket straddles a root in both branches, and fA is not 0 unless A = B |
| Volatility.NextStraddles | pkg/rating/glicko2.go:233-242 | fB - fA is not 0 when divided by, the invariant is kept, and the new bracket lies in the old one |
| Volatility.NextIsIllinois | pkg/rating/glicko2.go:234-241 | the next point is the zero of the line through the ends; where f keeps its sign the other end stays with half its value |
| Volatility.SearchStraddles | pkg/rating/glicko2.go:233-242 | the invariant holds after any number of turns |
| Volatility.SearchNested | pkg/rating/glicko2.go:233-242 | every bracket lies in all earlier ones and f has opposite signs at its ends |
| Volatility.CrossingBetween | pkg/rating/glicko2.go:234 | the secant point lies between A and B |
| Volatility.FuelIrrelevantOnceConverged | pkg/rating/glicko2.go:233 | once the loop has stopped by itself, a larger fuel changes nothing |
| Volatility.CalmVolatility | pkg/rating/glicko2.go:223-243 | the volatility window of the calm branch, after any number of turns |
| Volatility.SurprisedVolatility | pkg/rating/glicko2.go:223-243 | the variance window of the surprised branch |
| Periods.GroupByPeriod | pkg/rating/glicko2.go:273-294 | the loop computes the grouping, and stops |
| Periods.Advance | pkg/rating/glicko2.go:286-289 | the boundary loop appends exactly the empty periods up to the match |
| Periods.GroupedLossless | pkg/rating/glicko2.go:273-294 | concatenating the periods gives back the sorted input |
| Periods.GroupedTiles | pkg/rating/glicko2.go:277-292 | period starts are multiples of the duration from the first UTC midnight and every match lies inside its period |
| Periods.AdvanceStopsIffPositive | pkg/rating/glicko2.go:286-289 | the boundary loop stops if and only if the duration is positive |
| Periods.PeriodNanosExact | pkg/rating/glicko2.go:277 | a period of at least one day is exact in int64 nanoseconds if and only if it has at most 106751 days |
| Periods.LongPeriodsOverflow | pkg/rating/glicko2.go:277 | a period of 106752 days wraps to a negative duration, and the boundary never passes any match |
| Elo.Compute | pkg/rating/elo.go:13-56 | the loop over the sorted matches computes the fold, or the validation error |
| Elo.RateMatch | pkg/rating/elo.go:29-53 | one match |
| Elo.Conservation | pkg/rating/elo.go:28-54 | the total of rating - 1000 equals the sum over the matches of (ka - kb)(sa - ea) |
| Elo.ConservedUntilThreshold | pkg/rating/elo.go:28-63 | that total is 0 while no player passes 30 games |
| Elo.WinsBalanceLosses | pkg/rating/elo.go:65-88 | total wins equal total losses |
| Elo.Drift | pkg/rating/elo.go:28-63 | a player with g > 0 games is strictly within 32 min(g, 30) + 16 max(g - 30, 0) of 1000 |
| Elo.WinnerGains | pkg/rating/elo.go:46-47 | the winner of a match gains rating and the loser loses some |
| Elo.OrderOfPlayersIrrelevant | pkg/rating/elo.go:29-53 | which player a match names first does not matter |
| EloLaws.ExpectedOdds | pkg/rating/elo.go:33-34 | a player's expectation is to the opponent's as 10^(lead/400) is to 1 |
| EloLaws.ExpectedGrows | pkg/rating/elo.go:33-34 | a higher rating expects more, equal ratings expect a half each, and 400 points ahead expects 10/11 |
| EloLaws.GainIs | pkg/rating/elo.go:33-63 | below 30 games a player gains 32 times what the result is above the expectation, from then on 16 times |
| EloLaws.UnderdogGainsMore | pkg/rating/elo.go:33-53 | of two players with equal K-factors who beat the same opponent, the lower rated one gains more |
| EloLaws.FirstGame | pkg/rating/elo.go:13-54 | two newcomers start at 1000; the winner goes to 1016 and the loser to 984, and a draw changes neither |
| EloLaws.BestIsHighest | pkg/rating/elo.go:65-89 | the best rating is the highest there was after any match, from 0 up |
| EloLaws.NoDeviation | pkg/rating/elo.go:20-26 | ELO reports neither a deviation nor a volatility |
| Elo.ExpectedComplement | pkg/rating/elo.go:33-34 | the two expectations, each computed by the formula, add up to 1 |
| Elo.FoldStats | pkg/rating/elo.go:65-88 | the running statistics are those of the whole list |
| Rating.StatsMean | pkg/rating/glicko2.go:157-178 | the running counters are the games, wins, losses, points, current streak and last game of the history |
| Rating.ValidateAndSort | pkg/rating/rating.go:101-119 | the loop and the stable sort compute the prepared list or the first error |
| Rating.PreparedCorrect | pkg/rating/rating.go:101-119 | preparation fails exactly on invalid input, naming the first invalid match; otherwise it is a sorted permutation |
| Rating.FirstErrorCorrect | pkg/rating/rating.go:104-114 | the error reported is the first invalid match's |
| Rating.ErrorsMean | pkg/rating/rating.go:104-114 | which error a match gets: an empty id, else a player against themselves, else a negative score |
| Sorting.SliceStable | pkg/rating/rating.go:115-117 | insertion computes the one stable arrangement |
| Sorting.StableByKeyCorrect | pkg/rating/rating.go:115-117 | it is sorted, a permutation, and keeps the order of equal keys |
| Sorting.SortSlice | pkg/store/memstore/memstore.go:347-352 | a sort of which callers know only that it is a sorted permutation |
| Sorting.SortedPermutationUnique | pkg/store/memstore/memstore.go:347-352 | where the comparison tells all elements apart, only one such arrangement exists |
| Leaderboard.Sorted | pkg/rating/rating.go:67-80 | lists every rated player once, higher rating first, ties by id |
| Leaderboard.RankingUnique | pkg/rating/rating.go:67-80 | there is one such list, whatever order the map was walked in |
| Leaderboard.RatingsFall | pkg/rating/rating.go:67-80 | in that list ratings fall, and equally rated players are in the order of their ids |
| Leaderboard.StringLessIff | pkg/rating/rating.go:76-77 | ids compare by the first place where they differ, a beginning coming before what it begins |
| Leaderboard.OutranksWeakOrder | pkg/rating/rating.go:72-78 | the comparison is one a sort may be given |
| MemStore.Store.ListByGroup | pkg/store/memstore/memstore.go:338-354 | lists the group's matches once each in order of play, ids breaking ties, for any map order |
| History.HistoryUnique | pkg/store/memstore/memstore.go:338-354 | there is one such list |
| History.InOrderOfPlay | pkg/store/memstore/memstore.go:338-354 | it is in the order of play, matches played at one time in the order of their ids |
| Rankings.ComputeRatingsFor | pkg/handlers/rankings.go:41-72 | runs the engine on exactly the approved matches of the history whose players both have nicknames |
| Rankings.InputMembers | pkg/handlers/rankings.go:55-70 | the engine's input is made of exactly the counted matches |
| Rankings.InputIsPrepared | pkg/handlers/rankings.go:55-71 | stored history never fails validation and the engine's stable sort leaves it alone |
| Rankings.RatingsDetermined | pkg/handlers/rankings.go:41-72 | two computations on the same stored matches give the same ratings, without error |
| Credit.ReportedStatistics | pkg/handlers/rankings.go:41-72 | either engine rates exactly the players with an approved match between nicknamed players of the group, and reports the number of those matches, of the won and the lost ones, their points and the latest time |
| Rankings.UndoForgetsMatch | pkg/handlers/rankings.go:56-59 | an /undo of an approved match that completes, by an admin or by the second of its players, gives the ratings of the history without the match |
| Rankings.RestoreBringsBack | pkg/handlers/undo.go:94-107 | a completed undo and a later completed restore, whoever made them and whatever undo requests came and went between, give the original ratings |
| History.RestatedIsHistory | pkg/store/memstore/memstore.go:285-297 | a status change keeps the list and its order |
| History.OmittingIsHistory | pkg/store/memstore/memstore.go:316-323 | a deletion only drops the match from the list |
| ProtocolProofs.RunKeepsInv | pkg/handlers/match.go:129-187 | the invariant behind the next rows holds after every run of any number of handlers |
| ProtocolProofs.NoLostApproval | pkg/handlers/match.go:385-413 | without a confirm handler in flight, no PENDING match has both players' confirmations |
| ProtocolProofs.JustifiedApproval | pkg/handlers/match.go:370-413 | a stored match that is APPROVED or UNDONE was registered or confirmed by a chat admin of that moment, or has both players' confirmations |
| ProtocolProofs.IdsBelowCounter | pkg/store/memstore/memstore.go:83-92 | stored ids run from 1 to the group's counter, under their own key, with two different players |
| ProtocolProofs.NeverReissued | pkg/store/memstore/memstore.go:83-92 | an id once issued and no longer stored never comes back |
| ProtocolUndos.NoLostUndo | pkg/handlers/undo.go:66-107 | in every interleaving, while no /undo of a stored match is between writing its request and clearing them, its two players' requests do not stand together |
| ProtocolUndos.RunUndosOk | pkg/handlers/undo.go:66-107 | after every run, requests belong to issued ids, every /undo under way knows its players, and both requests mean such an /undo under way |
| ProtocolUndos.BothRequestedNext | pkg/handlers/undo.go:76-88 | one step keeps that: whoever completes the pair goes on to toggle and clear |
| ProtocolProofs.PlayersKept | pkg/store/memstore/memstore.go:285-297 | a step gives no stored match other players and issues no id twice |
| ProtocolParity.ParityIffStalesEven | pkg/handlers/undo.go:94-106 | after every interleaved run a settled match is APPROVED exactly when it was toggled an even number of times, if and only if the number of stale writes to it is even |
| ProtocolParity.RunParity | pkg/handlers/undo.go:94-106 | APPROVED after an even and UNDONE after an odd number of toggles and stale writes together, and neither has happened to a PENDING match |
| ProtocolParity.AloneParity | pkg/handlers/undo.go:41-107 | while never two handlers are under way no write is stale, and the toggles alone account for the status |
| ProtocolParity.AloneFresh | pkg/handlers/undo.go:41-107 | then every row a handler carries has the status that is stored |
| ProtocolParity.StatusNext | pkg/handlers/undo.go:94-106 | a step leaves a stored match the status the step writes to it, and a new match is not UNDONE |
| ProtocolParity.StaleConfirmRestores | pkg/handlers/match.go:375-413 | a run with one toggle and one stale write: a confirm tap that read PENDING early writes APPROVED over a later UNDONE |
| ProtocolProofs.StepRegister | pkg/handlers/match.go:107-128 | registration keeps the invariant |
| ProtocolProofs.StepConfirmRead | pkg/handlers/match.go:385-390 | writing a confirmation keeps it |
| ProtocolProofs.StepConfirmListing | pkg/handlers/match.go:402-407 | the listing that ends a confirm tap drops no approval |
| ProtocolProofs.StepApprove | pkg/handlers/match.go:395-408 | writing APPROVED keeps it |
| ProtocolProofs.StepToggle | pkg/handlers/undo.go:94-106 | writing the toggled status keeps it |
| ProtocolProofs.StepCancel | pkg/handlers/match.go:445-447 | deleting a cancelled match keeps it |
| ProtocolProofs.StepExpirySweep | pkg/handlers/periodic.go:96-102 | deleting an expired match keeps it |
| ProtocolProofs.StepExpiryDeleted | pkg/handlers/periodic.go:103 | deleting the confirmations of an expired match keeps it |
| Handlers.TapAlone | pkg/handlers/match.go:370-428 | a confirm tap of the interleaved model, left alone, does what the sequential handler does, whatever its two admin checks answer |
| Handlers.UndoAlone | pkg/handlers/undo.go:41-107 | so does an /undo |
| HandlerLaws.CancelAlone | pkg/handlers/match.go:430-450 | so does a cancel tap |
| HandlerLaws.RegisterAlone | pkg/handlers/match.go:97-187 | so does a registration, which posts the keyboard of a match that waits for its other player last |
| HandlerLaws.ExpiryAlone | pkg/handlers/periodic.go:91-114 | so does the expiry job, one match after another |
| HandlerLaws.UndoExpiryAlone | pkg/handlers/periodic.go:116-137 | and the job that lets undo requests expire |
| Handlers.HandleMatch | pkg/handlers/match.go:97-180 | registers the match with the next id, APPROVED for an admin, else PENDING with the author's confirmation; refuses self-play |
| Handlers.HandleConfirmTap | pkg/handlers/match.go:370-428 | the store after a confirm tap, for any answers to its two admin checks |
| Handlers.HandleCancelTap | pkg/handlers/match.go:430-450 | the store after a cancel tap |
| Handlers.HandleUndo | pkg/handlers/undo.go:41-92 | the store after an /undo |
| Handlers.ToggleMatch | pkg/handlers/undo.go:94-107 | the status is toggled and the match's undo rows are gone |
| Handlers.CleanExpiredMatches | pkg/handlers/periodic.go:91-114 | exactly the expired PENDING matches go, with all their rows, in any listing order |
| Handlers.CleanExpiredUndo | pkg/handlers/periodic.go:116-137 | exactly the undo rows older than 24 hours go |
| HandlerLaws.RegistrationEffect | pkg/handlers/match.go:97-180 | a registration stores the given row under the next id, APPROVED for a chat admin and else PENDING with the registering player's confirmation; nothing else changes |
| HandlerLaws.ConfirmEffect | pkg/handlers/match.go:370-413 | only a player of a PENDING match, or who the admin check lets through, changes anything: their confirmation is written, and the match is approved exactly if an admin tapped or both players have confirmed |
| HandlerLaws.CancelEffect | pkg/handlers/match.go:430-450 | the store changes if and only if the match is PENDING and the tapper is one of its players or a chat admin; then that match goes with its rows and nothing else |
| HandlerLaws.UndoEffect | pkg/handlers/undo.go:41-107 | who may not toggle changes nothing, a standing request is taken back, an admin or the second player toggles the status and clears the requests, any other player's request is noted |
| HandlerLaws.ExpiryEffect | pkg/handlers/periodic.go:91-114 | exactly the PENDING matches older than their group's timeout go, 24 hours where none is configured, with all their rows |
| HandlerLaws.RowsDropped | pkg/store/memstore/memstore.go:415-457 | deleting one match's confirmations or undo requests takes exactly those, also after the match itself is gone |
| UndoProtocol.RequestsStayOk | pkg/handlers/undo.go:57-107 | after every update, undo rows belong to players of stored matches that are not PENDING, and no match has both players' rows |
| UndoProtocol.StatusIsParity | pkg/handlers/undo.go:94-107 | a settled match is APPROVED after an even and UNDONE after an odd number of completed toggles, which are the executed /undos by an admin or by a player while the other's request stands |
| UndoProtocol.FlipIsCaused | pkg/handlers/undo.go:76-88 | a settled status changes only in a completed toggle |
| UndoProtocol.CompletedToggle | pkg/handlers/undo.go:66-107 | a completed toggle writes the other status, changes no other match and clears the match's requests |
| UndoProtocol.FlipsIffCompletes | pkg/handlers/undo.go:66-107 | so a settled status changes exactly when a toggle completes |
| UndoProtocol.SecondUndoWithdraws | pkg/handlers/undo.go:57-64 | a player's second /undo takes the first back without trace |
| UndoProtocol.AdminUndoTwice | pkg/handlers/undo.go:76-107 | an admin's second /undo restores every match |
| UndoProtocol.HandleOk | pkg/handlers/undo.go:41-107 | each kind of update keeps the rules about undo rows |
| UndoProtocol.StatusChange | pkg/handlers/undo.go:94-106 | a PENDING match never becomes UNDONE and new ids lie above the counter |
| MemStore.Store.constructor | pkg/store/memstore/memstore.go:53-66 | an empty store |
| MemStore.Store.AllocateAndInsertMatch | pkg/store/memstore/memstore.go:83-92 | inserts the row under the group's next id |
| MemStore.Store.UpdateStatus | pkg/store/memstore/memstore.go:285-297 | changes the status of that row only, or reports that there is none |
| MemStore.Store.Delete | pkg/store/memstore/memstore.go:316-336 | removes the match with its confirmations and undo rows, for any map order |
| MemStore.Store.CountsByPlayer | pkg/store/memstore/memstore.go:356-371 | counts for every player the stored matches of the group that are not UNDONE |
| MemStore.Store.ListPendingExpired | pkg/store/memstore/memstore.go:373-390 | the PENDING matches past their group's timeout |
| MemStore.Store.InsertConfirmation | pkg/store/memstore/memstore.go:396-401 | one row for match and user |
| MemStore.Store.ListConfirmations | pkg/store/memstore/memstore.go:403-413 | the users with a row |
| MemStore.Store.DeleteConfirmations | pkg/store/memstore/memstore.go:415-424 | the rows of one match go |
| MemStore.Store.InsertUndo | pkg/store/memstore/memstore.go:430-435 | one row for match and user |
| MemStore.Store.DeleteUndo | pkg/store/memstore/memstore.go:437-446 | that row goes, or it is reported missing |
| MemStore.Store.DeleteUndos | pkg/store/memstore/memstore.go:448-457 | the rows of one match go |
| MemStore.Store.ListUndos | pkg/store/memstore/memstore.go:459-469 | the users with a row |
| MemStore.Store.ListExpiredUndos | pkg/store/memstore/memstore.go:471-481 | the rows requested before the cutoff |
| MemStore.DeleteRows | pkg/store/memstore/memstore.go:325-334 | the deleting loops remove exactly the match's rows, for any map order |
| MemStore.ListRows | pkg/store/memstore/memstore.go:407-411 | the listing loops find exactly the match's users |
| PromptProofs.RestartsUnseen | pkg/handlers/match_interactive.go:132-155 | losing the draft at any points of a prompt and rebuilding it from the text of the next tap changes no edit, toast or registration of any tap, as long as no tap that finds no draft in memory carries an outdated text |
| PromptProofs.RestartUnseenIff | pkg/handlers/match_interactive.go:132-155 | a restart before a tap is unseen, whoever taps whatever, if and only if the text the tap carries restores the essence of the draft that was lost |
| PromptProofs.DispatchAlike | pkg/handlers/match_interactive.go:551-686 | leftover scores and opponent in the picker, and the leftover page in the score step, are unobservable |
| PromptProofs.DispatchMirrors | pkg/handlers/match_interactive.go:551-686 | after every tap, whatever calls fail, the message restores the draft, or there is no draft and the message restores none or is as it was |
| PromptProofs.DispatchMirrorsIff | pkg/handlers/match_interactive.go:579-626 | where the list of opponents may be empty, this holds of every tap except one that asks an empty picker to be shown in another step or on another page |
| PromptProofs.OneRegistration | pkg/handlers/match_interactive.go:653-683 | over any run of taps and restarts in which no tap that finds no draft in memory carries an outdated text, a prompt registers matches between the owner and somebody else only, with unequal scores in 0..7, and at most one of them unless a registration is not shown |
| PromptProofs.RegistersIff | pkg/handlers/match_interactive.go:510-793 | with any text, a tap registers a match if and only if the draft in memory, or without one the draft its text restores, may be confirmed, the tap is its owner's Confirm, and the store works; the row is determined, APPROVED for a chat admin and PENDING for anybody else |
| PromptProofs.RegistrationShown | pkg/handlers/match_interactive.go:662-683 | a registration that is shown gives its id and score, and has the buttons to confirm and cancel if and only if the owner is no chat admin |
| PromptProofs.ConfirmRefused | pkg/handlers/match_interactive.go:653-661 | a Confirm without both scores or without a winner is refused with the reason and changes nothing |
| PromptProofs.StrangersRefused | pkg/handlers/match_interactive.go:516-518 | a tap of anybody but the owner is answered and changes nothing |
| PromptProofs.IdleTaps | pkg/handlers/match_interactive.go:569-652 | taps that ask for nothing, or for what the step does not offer, are answered and change nothing |
| PromptProofs.CancelEnds | pkg/handlers/match_interactive.go:562-567 | Cancel leaves no draft, no keyboard and no match |
| PromptProofs.GoneIsSilent | pkg/handlers/match_interactive.go:510-515 | a tap on a prompt that is gone is answered without a word |
| PromptProofs.RegistrationsBounded | pkg/handlers/match_interactive.go:510-547 | with any texts and any failing edits, a prompt registers at most once, and once more for every tap that restores a draft after the prompt was over and every registration that could not be shown |
| PromptProofs.LingersIff | pkg/handlers/match_interactive.go:675-683 | a registration is not shown if and only if the edit fails and the failure of the answer, if there is one, cannot be shown either |
| PromptProofs.LingeringRegistersAgain | pkg/handlers/match_interactive.go:670-683 | after a registration that was not shown, a tap on Confirm with the present text registers again |
| PromptProofs.DoubleClickRegistersTwice | pkg/handlers/match_interactive.go:510-524 | two Confirm taps that both carry the score text register two matches although they are handled one after the other |
| PromptProofs.RegistrationEnds | pkg/handlers/match_interactive.go:662-683 | with any text, a registering tap leaves no draft and, if it is shown, a message that restores none; a prompt that is over stays so until a tap restores a draft |
| PromptProofs.RegistersWhatWasTapped | pkg/handlers/match_interactive.go:589-683 | under the same condition on texts, the registered match is against the opponent the owner picked last, with the scores they tapped last for each side since, taps that could not be shown apart, and only their Confirm registers it |
| Overlap.NextRegistrationIff | pkg/handlers/match_interactive.go:132-155 | whatever happened to a prompt, some further run registers a match if and only if the table holds its draft, its message restores one, a tap is under way that, dispatched on the draft it loaded, registers or shows the prompt again, or a callback is still to be handled whose text restores a draft |
| Overlap.OneIfNoneReopens | pkg/handlers/match_interactive.go:510-547 | a run in which every registration is shown and leaves no such tap and no such callback waiting registers at most one match |
| Overlap.RegisteringFinishes | pkg/handlers/match_interactive.go:662-683 | a registration leaves no draft in the table, and the message restores none exactly if an edit went through or it restored none before |
| Overlap.SettledStays | pkg/handlers/match_interactive.go:510-547 | a prompt that is over, with no such tap and no such callback waiting, registers nothing in any run |
| Overlap.OverlappingRegisterTwice | pkg/handlers/match_interactive.go:510-524 | two Confirm callbacks that load the draft before either is dispatched register two matches |
| Overlap.InTurnRegisterTwice | pkg/handlers/match_interactive.go:132-155 | so do two that were clicked before the first is handled, the second restoring the draft from its own text |
| Overlap.EveryPromptCanRegisterTwice | pkg/handlers/match_interactive.go:461-547 | every prompt that was posted has both kinds of run |
| Overlap.UncutTap | pkg/handlers/match_interactive.go:500-547 | a callback loaded and dispatched without another between them is the one-step tap of the other theorems, with the text it carries |
| PromptProofs.PickerRestores | pkg/handlers/match_interactive.go:367-368 | every picker message restores its draft |
| PromptProofs.ScoreRestores | pkg/handlers/match_interactive.go:411-415 | every score message restores its draft |
| PromptProofs.TapAlike | pkg/handlers/match_interactive.go:500-532 | two processes that show the same message answer a tap alike whose text is outdated for neither |
| PromptProofs.NextMirrored | pkg/handlers/match_interactive.go:500-547 | one event, a tap with an outdated text on no draft apart, keeps message and draft in step |
| PromptProofs.RegisteringTap | pkg/handlers/match_interactive.go:662-683 | a registering tap is the owner's, leaves no draft, and leaves a message that restores none exactly if an edit went through; a finished prompt stays finished |
| PromptProofs.ButtonsDecode | pkg/handlers/match_interactive.go:562-648 | the buttons for an opponent, a page and a score cell decode to that opponent, page and score |
| PromptProofs.NavigationWalks | pkg/handlers/match_interactive.go:382-401 | Next and Prev show the next and the previous page, and do nothing at the ends |
| PromptProofs.OppButtonPicks | pkg/handlers/match_interactive.go:374-378 | an opponent's button picks that opponent |
| PromptProofs.PickStartsScoring | pkg/handlers/match_interactive.go:589-612 | picking an opponent starts the score step with both labels and no scores |
| PromptProofs.OpensOnFirstPage | pkg/handlers/match_interactive.go:461-493 | /match opens on the first page of the picker |
| PromptProofs.BackShowsFirstPage | pkg/handlers/match_interactive.go:613-626 | Back shows the first page of the picker |
| PromptProofs.ScoreCellsSet | pkg/handlers/match_interactive.go:417-427 | each cell sets the score it shows on the side it stands |
| PromptProofs.ChosenMarked | pkg/handlers/match_interactive.go:417-427 | a cell is marked if and only if it shows the score chosen for its side |
| PromptProofs.WinnerFirst | pkg/handlers/match.go:458-470 | the scoreboard names the winner first, whichever side they were registered on |
| Header.OppRoundTrip | pkg/handlers/match_interactive.go:222-269 | rendering an opponent header after any body without a tag and parsing it gives back exactly what it carries |
| Header.ScoreRoundTrip | pkg/handlers/match_interactive.go:222-276 | the same for score headers, scores -1 to 9, which are never taken for opponent headers |
| Header.OppRoundTripIffId | pkg/handlers/match_interactive.go:222-269 | the round trip holds exactly for owner ids from 0 to the largest 64-bit integer |
| Header.OppCapturesUnique | pkg/handlers/match_interactive.go:222-223 | the matcher finds the one way the groups of the opponent expression can be filled |
| Header.ScoreCapturesUnique | pkg/handlers/match_interactive.go:224-225 | and of the score expression |
| Header.TagsDiffer | pkg/handlers/match_interactive.go:221-226 | no text matches both expressions at one place |
| Header.FindOppLeftmost | pkg/handlers/match_interactive.go:237 | the match found is the leftmost |
| Header.BracketFree | pkg/handlers/match_interactive.go:236-264 | a message without brackets carries no tag |
| QueryEscape.UnescapeEscape | pkg/handlers/match_interactive.go:240-272 | every string of bytes survives QueryEscape and QueryUnescape |
| QueryEscape.EscapedIsPlain | pkg/handlers/match_interactive.go:266-276 | escaped text has no whitespace and no brackets |
| QueryEscape.EscapedByteByByte | pkg/handlers/match_interactive.go:266-276 | letters, digits and -_.~ stay, a space becomes +, any other byte a percent sign and two hex digits |
| Strconv.ParseIntFormat | pkg/handlers/match_interactive.go:239-253 | printing and ParseInt are inverse on exactly the 64-bit integers |
| Strconv.ScanDigitsCorrect | pkg/validation/validation.go:95 | the digit loop computes the number the digits denote, or reports that it does not fit |
| Strconv.FormatIntInjective | pkg/handlers/rankings.go:64-65 | different ids print differently |
| Callback.HandleCallback | pkg/handlers/match_interactive.go:500-547 | on mutable drafts and the table, for any text the callback carries: the answer is the session's, the draft left is the session's unless collected, no other prompt's draft changes |
| Callback.HandleLoaded | pkg/handlers/match_interactive.go:516-547 | owner check, dispatch, and the failure of a tap shown |
| Callback.StartInteractiveMatch | pkg/handlers/match_interactive.go:461-493 | the first page is shown and its draft stored, unless the listing fails, there is nobody to pick, or the message is not sent |
| Callback.DispatchTap | pkg/handlers/match_interactive.go:551-686 | every branch updates the draft and the table as the value-level dispatch says, with failing edits and answers, and touches the draft |
| Callback.RenderOpponentPicker | pkg/handlers/match_interactive.go:345-403 | clamps the page in place and renders that page; without candidates nothing is rendered and the page stays |
| Callback.ShowPickerTap | pkg/handlers/match_interactive.go:579-587 | a page of the picker, an acknowledgement without candidates, or the store's error |
| Callback.PickOpponentTap | pkg/handlers/match_interactive.go:599-612 | labels are resolved, scores reset, the score step shown |
| Callback.PickScoreTap | pkg/handlers/match_interactive.go:642-651 | one side's score is set and shown |
| Callback.ConfirmTap | pkg/handlers/match_interactive.go:653-684 | checks, registration, and the draft dropped exactly when a match was registered, even if the edit or the answer then fails |
| Callback.CancelTap | pkg/handlers/match_interactive.go:562-567 | the draft goes, whatever fails afterwards |
| Callback.FailTapGracefully | pkg/handlers/match_interactive.go:534-547 | the draft goes and the failure is shown, what was registered stays registered |
| Callback.RegisterInteractiveMatch | pkg/handlers/match_interactive.go:736-793 | the row and the summary, or the reason there is none, for any two scores |
| DraftTable.Table.constructor | pkg/handlers/match_interactive.go:161 | an empty table |
| DraftTable.MatchDraft.constructor | pkg/handlers/match_interactive.go:241-261 | a draft with the given fields, not yet touched |
| DraftTable.Table.GcDrafts | pkg/handlers/match_interactive.go:184-210 | keeps nothing stale, at most 5000 drafts and no fewer than there is room for, and loses none while an older one survives |
| DraftTable.Table.DropStale | pkg/handlers/match_interactive.go:187-191 | the first pass removes exactly the stale drafts, for any map order |
| DraftTable.Table.DropOldest | pkg/handlers/match_interactive.go:193-209 | the second pass, for any order sort.Slice may produce |
| DraftTable.Table.ListAges | pkg/handlers/match_interactive.go:202-205 | lists every draft once with its age |
| DraftTable.Table.StoreDraft | pkg/handlers/match_interactive.go:157-164 | the draft is touched and stored, at most 5000 remain, others keep their objects |
| DraftTable.Table.DropDraft | pkg/handlers/match_interactive.go:166-171 | that draft goes |
| DraftTable.Table.LoadOrRestoreDraft | pkg/handlers/match_interactive.go:132-155 | the draft in memory, else a new one equal to what the header carries, else none |
| DraftTable.LostOnlyToCap | pkg/handlers/match_interactive.go:184-210 | a draft touched within 30 minutes is lost only at the cap of 5000, and then no survivor was touched earlier |
| DraftTable.StaleGoes | pkg/handlers/match_interactive.go:187-191 | a draft not touched for more than 30 minutes goes |
| DraftTable.DraftKeyInjective | pkg/handlers/match_interactive.go:118-120 | different prompts have different keys |
| Picker.OpponentCandidates | pkg/handlers/match_interactive.go:308-341 | every participant but the caller exactly once, most matches first, then by id, for any listing order |
| Picker.PickListUnique | pkg/handlers/match_interactive.go:334-339 | there is one such list |
| Picker.MostPlayedFirst | pkg/handlers/match_interactive.go:334-339 | in it the most played come first, equally often played in the order of their ids |
| Picker.CountsTheirMatches | pkg/handlers/match_interactive.go:308-332 | what is counted are the stored matches of the group the candidate plays in, undone ones apart |
| Picker.NamedByUsername | pkg/handlers/match_interactive.go:318-332 | opponents are shown by their username, those without one by their id |
| Picker.PagesCoverAll | pkg/handlers/match_interactive.go:353-365 | pages 1 to the last concatenate to the whole list |
| Picker.PageRows | pkg/handlers/match_interactive.go:360-365 | a page has 1 to 15 candidates |
| Picker.FullPages | pkg/handlers/match_interactive.go:360-365 | all pages but the last have 15 candidates |
| Picker.GridComplete | pkg/handlers/match_interactive.go:371-381 | the rows of three drop and repeat nobody |
| Picker.Resolved | pkg/handlers/match_interactive.go:318-332 | one candidate with label and match count |
| NickLookup.AnswersAreRecent | pkg/handlers/match.go:279-349 | every answer was the identity service's at most 37 days, and twice the latency of a lookup, before; any number of processes, any interleaving |
| NickLookup.BoundIsReached | pkg/handlers/match.go:291-303 | a run in which a lookup answers with a record exactly 37 days old |
| NickLookup.AnswersAreTrue | pkg/handlers/match.go:279-349 | while the service's answers do not change, returned, locally cached and durably cached answers agree with them, negative ones included |
| NickLookup.RunKeeps | pkg/handlers/match.go:279-349 | the invariant on the age of everything in circulation |
| NickLookup.LookupS21Nickname | pkg/handlers/match.go:279-349 | one lookup over the linked cache and the durable rows, with a failure and a clock reading of its own for every call |
| NickLookup.LookupAlone | pkg/handlers/match.go:279-349 | a lookup of the interleaved model, left alone, does the same, for any failures and any time between its calls |
| LookupLaws.ServiceAskedIff | pkg/handlers/match.go:279-349 | the identity service's answer makes no difference if and only if the process's cache has a record of at most 7 days or the durable one, if it can be read, one of at most 30 |
| LookupLaws.AnswerComesFrom | pkg/handlers/match.go:279-349 | the process's own cache answers, else the durable one, else the service |
| LookupLaws.LearnedIsKept | pkg/handlers/match.go:301-334 | what a lookup learned from beyond its process it tells again for 7 days, whatever durable cache and service say |
| LookupLaws.LearnedIsShared | pkg/handlers/match.go:334-347 | what the service said, written through, answers other processes for 30 days |
| NickLookup.DurableCache.Upsert | pkg/store/memstore/memstore.go:523-528 | the row is replaced, unless the call fails |
| NickLookup.DurableCache.constructor | pkg/store/memstore/memstore.go:64 | no rows |
| NickLookup.HitOk | pkg/handlers/match.go:281-284 | a hit in the LRU is at most 7 days old |
| NickLookup.HaveRowKeeps | pkg/handlers/match.go:291-304 | a durable row is used only within 30 days |
| NickLookup.PromoteKeeps | pkg/handlers/match.go:301-303 | putting it in the LRU with a new time keeps the invariant |
| NickLookup.UpsertKeeps | pkg/handlers/match.go:334-347 | so does writing it through |
| RecencyList.CapMonotone | pkg/identity/s21_nick_cache.go:74-145 | on any common trace and clock, a smaller cache holds an order-preserving sub-list of a larger one |
| RecencyList.HitsSurviveLargerCap | pkg/identity/s21_nick_cache.go:74-145 | raising the cap never turns a hit into a miss or changes its value |
| RecencyList.HitIsLatestPut | pkg/identity/s21_nick_cache.go:74-112 | a hit is the latest Put of its key, made within the TTL |
| RecencyList.HoldsLatestPut | pkg/identity/s21_nick_cache.go:94-112 | whatever the cache holds is the latest Put of its key |
| RecencyList.OrderedByUse | pkg/identity/s21_nick_cache.go:84-111 | entries are listed from most to least recently used |
| Retention.PutIsHeld | pkg/identity/s21_nick_cache.go:94-112 | what was put last is held |
| Retention.PutEvictsLeastUsed | pkg/identity/s21_nick_cache.go:104-145 | a Put loses another entry if and only if its key is not held, the cache is full, and that entry's key was used least recently |
| Retention.OthersLoseTheirOwn | pkg/identity/s21_nick_cache.go:74-89 | a Get loses its key's entry if and only if it has expired, an Invalidate its key's, and neither any other |
| Retention.InUseIsHeld | pkg/identity/s21_nick_cache.go:74-145 | a key put, not invalidated or asked for too late, and never unused while as many other keys as the cap were named, is held |
| Retention.InUseIsHit | pkg/identity/s21_nick_cache.go:74-89 | asking for such a key within its time is a hit with the user put last |
| RecencyList.RunKeepsInv | pkg/identity/s21_nick_cache.go:74-145 | keys are unique and the cap is never exceeded |
| NickCache.S21NickCache.constructor | pkg/identity/s21_nick_cache.go:52-66 | an empty cache; a cap below 1 becomes the default |
| NickCache.S21NickCache.Get | pkg/identity/s21_nick_cache.go:74-89 | on the map and the list: hit, miss or lazy expiry, and the hit moved to the front |
| NickCache.S21NickCache.Put | pkg/identity/s21_nick_cache.go:94-112 | the entry is in front with a new time, the cap holds |
| NickCache.S21NickCache.Refresh | pkg/identity/s21_nick_cache.go:97-103 | an entry is updated in place and moved to the front |
| NickCache.S21NickCache.PushFront | pkg/identity/s21_nick_cache.go:104-111 | a new entry in front, then eviction |
| NickCache.S21NickCache.Invalidate | pkg/identity/s21_nick_cache.go:117-124 | that entry goes, the others keep their order |
| NickCache.S21NickCache.EvictLocked | pkg/identity/s21_nick_cache.go:136-145 | exactly the entries behind the cap go |
| NickCache.S21NickCache.Size | pkg/identity/s21_nick_cache.go:128-132 | map and list have the same size |
| NickCache.S21NickCache.Drop | pkg/identity/s21_nick_cache.go:83-84 | an element leaves the list and the map together |
| NickCache.S21NickCache.Promote | pkg/identity/s21_nick_cache.go:87 | an element moves to the front, the rest keeps its order |
| NickCache.S21NickCache.DropBack | pkg/identity/s21_nick_cache.go:138-143 | the least recently used element leaves both structures |
| NickCache.Element.constructor | pkg/identity/s21_nick_cache.go:104-108 | an element with the given fields |
| Validation.ParseScoreAccepts | pkg/validation/validation.go:50-67 | the accepted scores are exactly the plain decimal forms of two different numbers up to 99 |
| Validation.ScoreRefused | pkg/validation/validation.go:50-67 | of two plain numbers, one above 99 is out of range, and two equal ones up to 99 are a tie |
| Validation.ExtractPrinted | pkg/validation/validation.go:90-100 | an id printed behind the first # of a text is found again if and only if it fits 64 bits |
| Validation.UndoFindsAnnounced | pkg/handlers/undo.go:32-36 | an /undo that replies to a match announcement finds that match, whatever the players are called |
| Validation.PayloadRoundTrip | pkg/handlers/match.go:502-513 | Confirm and Cancel buttons lead back to the group and match they were made for |
| Validation.ConfirmationRowsLeadBack | pkg/handlers/match_interactive.go:787-791 | the two buttons of a registered prompt parse back to its match |

## Left out

- Floating point: rounding, and the number of iterations the root search needs to reach its tolerance. `GlickoUpdate.Glicko2Update` returns whether it converged within the fuel.
- Integer widths of counters: match ids and the per-group counter are unbounded naturals (uint64 in the source), scores and point totals unbounded integers.
- Store failures in the match lifecycle: store calls of `Protocol` and `Handlers` succeed. The prompt's failing store calls and the durable cache's are modelled.
- Admin checks and reads of the group row happen together with the store call before them; message edits, replies and reactions are not steps.
- ProtocolProofs.JustifiedApproval: the author's own typed registration and the interactive one are one `Register` action; the keyboard is posted after the author's confirmation in both.
- A callback whose handling a restart cuts short is lost in `Overlap`, not delivered again; an edit takes effect in the step that dispatches the tap.
- HTML entity handling by Telegram, message edits that fail but change the message, labels with `[`, negative user ids, and the last opponent leaving the group: the theorems about runs of a prompt assume none of them. `PromptProofs.EventOk` and `PromptProofs.EnvOk` list the assumptions; `PromptProofs.DispatchMirrorsIff` says what the last of them excludes.
- Wording of messages, decorations of button labels and the performance log.
- `container/list`: the cache's linked list is a sequence of element objects; its pointers are not modelled.
- NickLookup.AnswersAreRecent: a durable record carries the telegram id it was looked up by, so answers are compared by what a lookup reports, nickname and found.
- Validation.UndoFindsAnnounced: covers announcements; `ParseIdentifier` and `ParseAdminCredentials` only match single patterns and are not modelled.
- Handlers.CleanExpiredMatches: one clock for all; the in-memory store reads the real clock where the handlers read the configured one.
- ydbstore, the identity service and the s21 client, token encryption, logins, group configuration, username refresh, stats-topic messages and notifications.
