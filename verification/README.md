# PushFlip, verified

PushFlip is a card game that runs as an on-chain program. Players stake tokens, draw cards from a deck that an
off-chain dealer shuffled and committed to with a Merkle root, bust on a repeated Alpha value or stay with a score,
and the best stayer takes the pot. This project models the program, the dealer and the client code around them, and
proves what they promise each other.

| file | contents |
|---|---|
| `Options`, `Sequences`, `Numbers`, `Digits` | optional values, distinct sequences, powers and division, positional notation |
| `Cards`, `Scoring` | the canonical deck, hand scores, busts |
| `Shuffle`, `Merkle` | the dealer's shuffle, the Merkle tree and the on-chain walk; hashing is a free datatype, so no two inputs collide |
| `Ledger`, `GameSpec` | token balances, and each instruction as a function from a game to a new game or an error |
| `GameInvariant` ... `GameTurns` | theorems over all runs: invariant, cards, busts, tokens, termination, turns |
| `GameRefusals`, `GameEffects`, `GameBurns` | exactly when each call is refused and why, exactly what each accepted call changes, and the burns a player has left |
| `GameExamples` | played games that fail a tempting property |
| `PlayerState`, `Program` | the accounts and instructions in place, each method proved against its function |
| `DealerProtocol` | the dealer's ticks split at every await, cards served over HTTP and the chain, interleaved |
| `DealerProgress` | which requests the dealer serves, and a commit from the first tick to the first card |
| `DealerService` | the dealer and the tick in place, proved against the protocol's steps |
| `Advisor` | the bust probability against a brute-force count |
| `Nicknames` | the nickname registry |
| `Bytes`, `SessionLayout`, `PlayerLayout` | account bytes: the program's offsets against the client's sequential readers |
| `Hex`, `Events`, `EventLines` | hexadecimal text, event lines and their parser |

A game state is the session account, its PlayerStates, the vault and all token wallets. A run is any sequence of
calls by anyone with any arguments; a refused call changes nothing. Token transfers between wallets and straight into
the vault by outsiders are calls too.

Three assumptions carry the results about the dealer. There is one dealer, so nobody else signs with its key. What a
fetch returns is the chain at some instant between the request and the answer; the service asks without naming a
commitment level, so a node that answers with an older finalized state is outside this model, and
`DealerProtocol.ResetIsNeverLive` shows that the re-entry branch trusts the snapshot alone. A commit that throws after
it was sent landed before, or never will.

Where code and comments disagree, the model follows the code. The event module puts the longest `end_round` line at
about 172 bytes; it is 188. A steal does not look for a bust, a forfeit does not move the turn, and a
field named `__proto__` does not survive the event parser. An end of round with a winner is refused while pot times fee
exceeds 64 bits. For each there is a lemma with the exact condition (`GameBusts.StealDuplicatesIff`,
`GameTurns.ForfeitStallsIff`, `Events.EventRoundTrip`, `GameTokens.EndAcceptedIff`) and a failing input
(`GameExamples.StealCanDuplicate`, `GameExamples.ForfeitCanStall`, `Events.ProtoIsLost`, `GameExamples.PotCanOverflow`);
`GameRounds.RoundCanAlwaysEnd` shows that forfeits always open a way out. In rounds without forfeits and second chances
card effects move no card at all (`GameTurns.EffectsFindNothing`).

## Model

| member | source | states |
|---|---|---|
| Cards.DeckIsWellFormed | program/src/utils/deck.rs:28-50 | every canonical card is an Alpha of value 1-13, a protocol card of a known effect or a multiplier of factor 2, 3 or 5 |
| Cards.HandIsWellFormed | program/src/utils/deck.rs:28-50 | so is every card of a hand contained in the deck |
| Cards.AlphaCopiesInDeck | app/src/lib/advisor.ts:72-78 | each Alpha value occurs exactly four times in the deck, and no other value at all |
| Cards.MultiplierCopiesInDeck | program/src/utils/deck.rs:44-50 | each multiplier factor occurs exactly four times |
| Cards.DeckInBytes | program/src/utils/deck.rs:28-50 | every position of the deck by its bytes: four runs of Alphas 1-13, then ten protocol cards each of value 0, 1 and 2 at 52-61, 62-71 and 72-81, then four multipliers each of 2, 3 and 5 |
| Cards.CreateCanonicalDeckOnChain | program/src/utils/deck.rs:24-54 | the fill loops with the running index produce exactly the canonical deck |
| Cards.CreateCanonicalDeckOffChain | dealer/src/deck.ts:33-62 | the push loops of the dealer produce the same deck |
| Shuffle.FisherYatesShuffle | dealer/src/deck.ts:68-81 | for any number of positions and any words, the in-place swaps produce the specified shuffle, a permutation |
| Shuffle.ShufflePermutes | dealer/src/deck.ts:75-78 | every run of the swaps, from any position down, is a permutation of its input |
| Shuffle.ShuffleInjective | dealer/src/deck.ts:75-78 | different choice vectors give different permutations |
| Shuffle.ShuffleBijective | dealer/src/deck.ts:68-81 | for any n, every permutation comes from some choice vector; with injectivity, exactly one |
| Shuffle.LastPick | dealer/src/deck.ts:75-78 | the last position ends with the word of that position modulo the length |
| Shuffle.HitsExactly | dealer/src/deck.ts:76 | how many of the numbers below n leave remainder r modulo m |
| Shuffle.ChoiceIsNearlyUniform | dealer/src/deck.ts:71-77 | each residue of a 32-bit word modulo i+1 is hit by the floor or the ceiling of 2^32/(i+1) words |
| Shuffle.ApplyPermuted | dealer/src/deck.ts:87-89 | applying two permutations of the same indices gives the same multiset |
| Shuffle.ShuffledDeckIsCanonical | dealer/src/dealer.ts:76-78 | whatever the random words, the shuffled deck holds exactly the canonical cards |
| Merkle.Complete | dealer/src/merkle.ts:73-116 | for any depth, the extracted proof of a node climbs to the root |
| Merkle.Sound | program/src/zk/merkle.rs:22-52 | for any depth, whatever climbs to the root from index i is the node at i, by exactly its proof |
| Merkle.ClimbLowBits | program/src/zk/merkle.rs:33-44 | only the low bits of the index steer the walk |
| Merkle.FourLeaves | dealer/src/merkle.ts:57-116 | the tree over four leaves written out: left before right, siblings from the leaf up, value, type, suit and index in a card leaf |
| Merkle.DeckSound | program/src/zk/merkle.rs:22-52 | for any depth and deck, an accepted card at any index, in or out of range, is the card (or padding) at that position, with its own proof |
| Merkle.DeckVerifies | program/src/zk/merkle.rs:22-52 | for 94 cards at depth 7, a card and proof are accepted at an index if and only if they are the card there and its extracted proof |
| Merkle.RootBindsDeck | program/src/zk/merkle.rs:46-49 | a root commits to one deck |
| Merkle.BuildMerkleTree | dealer/src/merkle.ts:49-95 | the level loops build the tree of the padded leaves with the specified root on top |
| Merkle.HashLeaves | dealer/src/merkle.ts:57-71 | card leaves carry value, type, suit and index, padding leaves zeros and the index |
| Merkle.BuildLevel | dealer/src/merkle.ts:76-88 | one level pairs the nodes of the level below |
| Merkle.GetMerkleProof | dealer/src/merkle.ts:102-116 | the sibling loop extracts the specified proof; an index outside the tree is refused |
| Merkle.VerifyMerkleProof | program/src/zk/merkle.rs:22-52 | the on-chain walk accepts exactly what verifies |
| Merkle.ComputeCanonicalHash | dealer/src/merkle.ts:122-138 | the loop chains the card hashes from the first card on |
| Merkle.ChainBindsDeck | dealer/src/merkle.ts:118-138 | the canonical deck hash fixes the deck, its length included |
| Merkle.ThreeLinks | dealer/src/merkle.ts:122-138 | the chain over three cards written out, each hashed with its position |
| Scoring.ExactScoreBound | program/src/utils/scoring.rs:9-32 | a hand of at most ten deck cards is worth at most 1,316,250 in unbounded arithmetic |
| Scoring.ProductDoesNotWrap | program/src/utils/scoring.rs:18-22 | the 64-bit product of the multipliers of such a hand never wraps |
| Scoring.AlphaSumCounts | program/src/utils/scoring.rs:12-16 | the Alpha sum of a well-formed hand is the total over v = 1..13 of v times the number of Alphas of value v it holds |
| Scoring.ScoreIsExact | program/src/utils/scoring.rs:9-32 | the score, computed from the number of copies of each card in the hand, is exact: the total of the Alphas times 2, 3 and 5 for each multiplier, at most 1,316,250, neither wrapped nor saturated |
| Scoring.ScoreBoundIsTight | program/src/utils/scoring.rs:9-32 | a hand of ten deck cards reaches the bound |
| Scoring.CheckBustMeaning | program/src/utils/scoring.rs:35-54 | no bust is reported exactly for hands without two Alphas of one value; a reported value is one the hand holds twice |
| Scoring.BustInBytes | program/src/utils/scoring.rs:35-54 | the same by the bytes of the cards: a bust exactly when two cards of type 0 share a value from 1 to 13 |
| Scoring.BustOnDraw | program/src/utils/scoring.rs:35-54 | drawing onto a duplicate-free hand busts exactly on a held Alpha value, and reports that value |
| Scoring.BustStays | program/src/utils/scoring.rs:41-51 | a bust found in a prefix of the hand is the bust of the whole hand |
| Scoring.ScanForBust | program/src/utils/scoring.rs:35-54 | the loop over the table of seen values computes the specified bust |
| GameInvariant.InitialInv | program/src/instructions/initialize.rs:110-140 | a fresh game is sound |
| GameInvariant.UnseatKeeps | program/src/instructions/leave_game.rs:107-116 | compaction keeps the other seats, all of them and distinct |
| GameInvariant.EffectMovesCards | program/src/instructions/hit.rs:205-273 | a card effect changes hands and nothing else of any player |
| GameInvariant.EffectKeepsPlayers | program/src/instructions/hit.rs:205-273 | and keeps every hand within ten cards |
| GameInvariant.EndAccepted | program/src/instructions/end_round.rs:69-147 | an accepted end of round found nobody active and settles the winner or rolls over |
| GameInvariant.EndRoundClears | program/src/instructions/end_round.rs:243-245 | an accepted end of round clears round, deck and draw counter, and touches no player |
| GameInvariant.NextKeepsInv | program/src/state/game_session.rs:8-33 | every call by anyone, accepted or refused, keeps: distinct non-zero seats, a PlayerState exactly per seat, active iff reason ACTIVE, score only if stayed, bust value only if bust, hands within ten, draw counter within 94 and zero between rounds, a running round with deck, two players and a valid turn, rollover within ten |
| GameInvariant.RunKeepsInv | program/src/state/player_state.rs:9-39 | so every state reachable from initialize by any calls is sound |
| PlayerAccounts.PlayerState.constructor | program/src/instructions/join_round.rs:159-177 | a new PlayerState starts active with an empty hand and its stake |
| PlayerAccounts.PlayerState.PushCard | program/src/state/player_state.rs:181-188 | a push appends to the hand, and is refused on a full one |
| PlayerAccounts.PlayerState.PopCard | program/src/state/player_state.rs:190-196 | a pop drops the last card of a nonempty hand |
| PlayerAccounts.PlayerState.FindHighestAlpha | program/src/instructions/hit.rs:218-227 | the scan finds the first Alpha of the highest value |
| PlayerAccounts.PlayerState.RemoveCard | program/src/instructions/hit.rs:229-235 | the shift loop removes exactly that card and keeps the order of the others |
| PlayerAccounts.PlayerState.ResetForRound | program/src/instructions/start_round.rs:88-95 | hand, flags, score and burns are cleared; the stake stays |
| PlayerAccounts.PlayerState.MarkBust | program/src/instructions/hit.rs:151-155 | a bust deactivates and records its value |
| PlayerAccounts.PlayerState.Forfeit | program/src/instructions/leave_game.rs:84-90 | a forfeit deactivates as a bust and zeroes the score |
| PlayerAccounts.PlayerState.LockIn | program/src/instructions/stay.rs:84-96 | a stay records the score and deactivates |
| PlayerAccounts.PlayerState.Revive | program/src/instructions/burn_second_chance.rs:96-101 | a second chance pops the last card and reactivates |
| PlayerAccounts.PlayerState.MarkScry | program/src/instructions/burn_scry.rs:108-109 | a scry is recorded |
| PlayerAccounts.PlayerTable.Create | program/src/instructions/join_round.rs:125-177 | creating an account adds one record |
| PlayerAccounts.PlayerTable.Close | program/src/instructions/leave_game.rs:119-124 | closing an account removes its record |
| Program.GameAccounts.constructor | program/src/instructions/initialize.rs:110-140 | the written fields are those of the specified initial game |
| Program.GameAccounts.InitVault | program/src/instructions/init_vault.rs:57-175 | answers exactly as specified, errors in the order of the guards, nothing changed on error |
| Program.GameAccounts.CloseGame | program/src/instructions/close_game.rs:28-60 | likewise; only with no round running and an empty pot |
| Program.GameAccounts.JoinRound | program/src/instructions/join_round.rs:38-194 | likewise; seats the player, moves the stake to vault and pot only when the vault exists |
| Program.GameAccounts.LeaveGame | program/src/instructions/leave_game.rs:27-125 | likewise; forfeits mid-round, gives up the seat between rounds |
| Program.GameAccounts.Compact | program/src/instructions/leave_game.rs:98-116 | the shift loop removes exactly one seat and zeroes the freed slot |
| Program.GameAccounts.CommitDeck | program/src/instructions/commit_deck.rs:32-112 | likewise; stores root and flag once per round and resets the draw counter |
| Program.GameAccounts.StartRound | program/src/instructions/start_round.rs:21-114 | likewise; resets every seated player, starts the turn cycle, counts the round without wrapping |
| Program.GameAccounts.CheckAccounts | program/src/instructions/start_round.rs:63-74 | the account loop reports the first account that does not belong to its seat |
| Program.GameAccounts.ResetPlayers | program/src/instructions/start_round.rs:77-96 | the reset loop reaches every seated player and no other |
| Program.GameAccounts.Stay | program/src/instructions/stay.rs:26-113 | likewise; locks in the score of the hand and passes the turn |
| Program.GameAccounts.BurnScry | program/src/instructions/burn_scry.rs:31-110 | likewise; one scry a round, its cost burned |
| Program.GameAccounts.BurnSecondChance | program/src/instructions/burn_second_chance.rs:30-102 | likewise; one second chance a round, its cost burned, the turn not moved |
| Program.GameAccounts.CheckTurn | program/src/instructions/hit.rs:88-100 | reports why a player may not act now |
| Program.GameAccounts.FindValidTarget | program/src/instructions/hit.rs:277-301 | the loop finds the first passed account that is active and not the player |
| Program.GameAccounts.RugPull | program/src/instructions/hit.rs:213-237 | discards the highest Alpha of the target |
| Program.GameAccounts.VampireAttack | program/src/instructions/hit.rs:244-268 | moves the last card of the target to the player, or fails on a full hand |
| Program.GameAccounts.ResolveCard | program/src/instructions/hit.rs:142-168 | a drawn card busts, takes effect or just stays |
| Program.GameAccounts.Draw | program/src/instructions/hit.rs:119-181 | draw, effect, counter and turn as specified; an effect that fails undoes the draw |
| Program.GameAccounts.Hit | program/src/instructions/hit.rs:40-199 | the whole instruction, with its guards in order |
| Program.GameAccounts.AdvanceTurn | program/src/instructions/hit.rs:303-310 | the turn moves to the next seat, around the table |
| Program.GameAccounts.FindWinner | program/src/instructions/end_round.rs:115-147 | the loop reports a still active player, or the seat the payout goes to |
| Program.GameAccounts.PayWinner | program/src/instructions/end_round.rs:174-209 | rake and payout as specified, with their failures |
| Program.GameAccounts.RollPotOver | program/src/instructions/end_round.rs:216-236 | rollover or sweep as specified |
| Program.GameAccounts.EndRound | program/src/instructions/end_round.rs:31-258 | the whole instruction, with its guards in order |
| GameSpec.AccountsMatch | program/src/instructions/end_round.rs:91-101 | the account check passes exactly when the accounts start with the seats in order and each has a PlayerState |
| GameSpec.FindTargetMeaning | program/src/instructions/hit.rs:277-301 | the target of an effect is the first passed account that is active and not the one drawing; there is none exactly when none is eligible |
| GameSpec.HighestAlphaMeaning | program/src/instructions/hit.rs:219-227 | a rug pull takes the first of the Alphas of the highest value; none exactly when there is no Alpha of positive value |
| GameRefusals.RefusalsAreExact | program/src/instructions/hit.rs:40-137 | from every reachable state each of the thirteen calls fails if and only if one of its listed refusals applies, and then with exactly the first; everything else is accepted |
| GameRefusals.AccountsErrorMeaning | program/src/instructions/start_round.rs:60-74 | among the passed accounts the first that is not its seat's decides: no PlayerState, or another player's |
| GameRefusals.EffectFailsIff | program/src/instructions/hit.rs:244-268 | an effect fails exactly as a steal onto a full hand |
| GameRefusals.InitializeAgrees | program/src/instructions/initialize.rs:50-140 | initialize is accepted exactly from a signer with a fee of at most 9999, otherwise its first error |
| GameEffects.InitialState | program/src/instructions/initialize.rs:110-140 | a fresh game: open, no seats, no money, no round, no deck |
| GameEffects.JoinEffects | program/src/instructions/join_round.rs:125-194 | an accepted join appends the seat, adds one active player with empty hand and unused burns, moves the stake exactly when the vault exists, and changes nothing else |
| GameEffects.LeaveEffects | program/src/instructions/leave_game.rs:92-124 | after an accepted leave between rounds the seat and its PlayerState are gone, and of any two remaining seats one comes before the other if and only if it did |
| Sequences.WithoutKeepsOrder | program/src/instructions/leave_game.rs:104-116 | removing one element of distinct ones keeps the relative order of all the others, both ways |
| GameEffects.ForfeitEffects | program/src/instructions/leave_game.rs:84-90 | a forfeit puts the player out as a bust with score 0 and changes neither hand, burns, stake, turn nor anybody else |
| GameEffects.AdminEffects | program/src/instructions/commit_deck.rs:107-112 | an accepted commit, vault initialization or close changes just its own fields |
| GameEffects.StartEffects | program/src/instructions/start_round.rs:77-107 | after every accepted start each seated player has an empty hand, both burns unused and the same stake; the turn is 0, the round counts up to the 64-bit maximum and the weight of the round is exactly 94+6n |
| GameEffects.StayEffects | program/src/instructions/stay.rs:67-113 | a stay locks the score in, moves the turn to the next seat around the table and changes nothing else |
| GameEffects.ScryEffects | program/src/instructions/burn_scry.rs:92-110 | a scry burns 25 tokens of the player, sets the flag and changes nothing else |
| GameEffects.SecondChanceEffects | program/src/instructions/burn_second_chance.rs:80-102 | a second chance burns 50 tokens of the player, drops the last card, clears the bust and changes nothing else |
| GameEffects.EndEffects | program/src/instructions/end_round.rs:174-246 | an accepted end of round changes only money, rollovers and the flags of the round |
| GameEffects.HitFrame | program/src/instructions/hit.rs:119-181 | an accepted hit changes only players and turn, and counts one draw |
| GameEffects.BustingHit | program/src/instructions/hit.rs:142-181 | a draw that busts leaves the card in the hand, puts the player out with the repeated value and passes the turn |
| GameEffects.PlainHit | program/src/instructions/hit.rs:142-168 | a drawn card that is not of type 1 with value 0 or 2 joins the hand, changes nobody else and does not move the turn |
| GameEffects.RugPullHit | program/src/instructions/hit.rs:205-237 | a drawn card of type 1 and value 0 leaves the drawer's hand as drawn and takes the first highest Alpha out of the target's hand, the cards behind it moving up in order |
| GameEffects.VampireHit | program/src/instructions/hit.rs:205-268 | a drawn card of type 1 and value 2 moves the last card of the target to the end of the drawer's hand |
| GameBurns.StepBurns | program/src/instructions/burn_second_chance.rs:96-101 | within a round a burn flag changes exactly by an accepted burn of that player |
| GameBurns.BurnsAreRecorded | program/src/instructions/start_round.rs:88-95 | over any run, in a running round each burn flag is set if and only if that burn was accepted since the last accepted start |
| GameBurns.SecondChanceIff | program/src/instructions/burn_second_chance.rs:57-94 | in every reachable round a seated player gets a second chance if and only if bust, able to pay 50 tokens, and without one since the round started |
| GameBurns.ScryIff | program/src/instructions/burn_scry.rs:58-106 | likewise for scry: at the turn, active, able to pay 25 tokens, and without one since the round started |
| GameCards.DrawnFromDeck | program/src/instructions/hit.rs:106-117 | the card an accepted hit reveals is the next card of the committed deck |
| GameCards.PullConserves | program/src/instructions/hit.rs:229-235 | a rug pull takes exactly the discarded card out of the hands |
| GameCards.StealConserves | program/src/instructions/hit.rs:244-268 | a steal leaves all hands together unchanged |
| GameCards.EffectConserves | program/src/instructions/hit.rs:205-273 | hands after an effect, with its discard, are the hands before |
| GameCards.HitMoves | program/src/instructions/hit.rs:119-168 | hands after a hit, with its discard, are the hands before and the drawn card |
| GameCards.HitAccepted | program/src/instructions/hit.rs:66-117 | an accepted hit is by leaf index the next draw, below 94, with a verified proof |
| GameCards.OnlyCommitSetsDeck | program/src/instructions/commit_deck.rs:107-112 | no other instruction changes a committed root or declares a deck committed |
| GameCards.NextKeepsCards | program/src/instructions/hit.rs:119-185 | each call keeps the card invariant |
| GameCards.CardsAreConserved | program/src/instructions/hit.rs:106-185 | in every reachable state of a running round, all hands and the discards together are exactly the first draw-counter cards of the committed deck, through hits, rug pulls, steals, second chances and forfeits |
| GameBusts.HandInDeck | program/src/instructions/hit.rs:119-168 | every hand of a running round is part of the canonical deck |
| GameBusts.StayScores | program/src/instructions/stay.rs:84-92 | a locked-in score is the score counted from the copies of each card in the hand, at most 1,316,250 |
| GameBusts.StealDuplicatesIff | program/src/instructions/hit.rs:244-268 | a steal is not checked for a bust: the thief stays active with a duplicate exactly when the stolen card is an Alpha of a held value |
| GameBusts.EffectBustOk | program/src/instructions/hit.rs:205-273 | an effect keeps the bust bookkeeping, marking whoever received a stolen card |
| GameBusts.SecondChanceBustOk | program/src/instructions/burn_second_chance.rs:96-101 | a second chance leaves a duplicate-free hand, unless a stolen card came in |
| GameBusts.RunKeepsBusts | program/src/instructions/hit.rs:140-155 | the bookkeeping holds over any run |
| GameBusts.ReachablePlayer | program/src/instructions/hit.rs:140-155 | for every player in every reachable running round: hand within the deck, score within the bound, a bust value belongs to an inactive bust player holding two Alphas of it, and without stolen cards an active or stayed hand has no duplicate, nor a revived one |
| GameTokens.TokensAreConserved | program/src/instructions/join_round.rs:148-193 | over any run wallets, vault and burned tokens sum to the initial supply, and the vault holds exactly pot plus donations |
| GameTokens.CloseLeavesNoPot | program/src/instructions/close_game.rs:48-50 | a game can be closed only once its vault holds nothing but donations |
| GameTokens.EndNeverLacksFunds | program/src/instructions/end_round.rs:184-231 | no rake, payout or sweep ever lacks funds |
| GameTokens.JoinNeverOverflows | program/src/instructions/join_round.rs:187-193 | with a 64-bit token supply no stake overflows the pot |
| GameTokens.WinnerIsFirstBest | program/src/instructions/end_round.rs:115-147 | the winner is the first seat with the best score among the players who stayed; there is none exactly when nobody stayed |
| GameTokens.EndAcceptedIff | program/src/instructions/end_round.rs:31-235 | in every reachable state, exactly when an end of round is accepted, including that pot times fee must fit 64 bits when there is a winner and a pot |
| GameTokens.PotIsPaidInFull | program/src/instructions/end_round.rs:174-209 | the treasury gets floor(pot*fee/10000), the first best stayer the rest, at least 1 of a positive pot, and the pot is empty |
| GameTokens.BustEndRolls | program/src/instructions/end_round.rs:216-236 | an end of round without a stayer rolls the whole pot over, and sweeps it at the cap |
| GameTokens.RolloversCount | program/src/instructions/end_round.rs:217-235 | the rollover counter counts them |
| GameTokens.ElevenBustsSweep | program/src/instructions/end_round.rs:217-235 | among any eleven consecutive ends of round without a stayer, one sweeps the whole pot to the treasury |
| GameRounds.StepDecreases | program/src/instructions/hit.rs:177-181 | every accepted round step that changes anything lowers a weight of undrawn cards, standings and unused burns |
| GameRounds.StepsAreBounded | program/src/instructions/leave_game.rs:84-90 | over any run inside a round, changing steps plus remaining weight stay within the initial weight |
| GameRounds.RoundsTerminate | program/src/instructions/burn_second_chance.rs:80-101 | a round of n players sees at most 94+6n hits, stays, forfeits, scries and second chances that change anything |
| GameRounds.ForfeitsAccepted | program/src/instructions/leave_game.rs:71-90 | from any running round the players can forfeit one after the other |
| GameRounds.RoundCanAlwaysEnd | program/src/instructions/end_round.rs:115-147 | from every reachable running round, all forfeits and then end_round by the authority are accepted: no round is stuck |
| GameTurns.TurnsFollowSeats | program/src/instructions/stay.rs:92-109 | in every reachable round without forfeits and second chances the inactive seats are exactly those before the turn, all of them once it wraps |
| GameTurns.TurnNeverGoesBack | program/src/instructions/hit.rs:303-310 | within such a round the turn never goes back while someone is active |
| GameTurns.ActorsInSeatOrder | program/src/instructions/hit.rs:92-100 | whoever acts sits at the turn, and later actors never sit earlier |
| GameTurns.ActionsAreContiguous | program/src/instructions/hit.rs:151-181 | nobody else acts between two actions of a player |
| GameTurns.OnlyTurnPlayerActs | program/src/instructions/hit.rs:92-137 | in any sound state only the player at the turn acts, and only while active |
| GameTurns.EffectsFindNothing | program/src/instructions/hit.rs:205-301 | in every reachable round without forfeits and second chances each accepted hit changes the drawing player alone: no rug pull discards and no vampire steals, since all other active players still hold no card |
| GameTurns.CanActIff | program/src/instructions/hit.rs:88-137 | in a running round some hit, stay or scry is accepted if and only if the seat at the turn is active |
| GameTurns.ForfeitStallsIff | program/src/instructions/leave_game.rs:84-90 | a forfeit does not move the turn: after it somebody can act if and only if somebody could before and the leaver did not hold the turn |
| GameTurns.SecondChanceStallsIff | program/src/instructions/burn_second_chance.rs:96-101 | nor does a second chance: after it somebody can act if and only if somebody could before or the turn player took it |
| GameExamples.ForfeitCanStall | program/src/instructions/leave_game.rs:84-90 | a played game in which the turn player leaves, the other is still active and nobody can act |
| GameExamples.PotCanOverflow | program/src/instructions/end_round.rs:174-179 | a played game in which both stay, their pot times the default fee exceeds 64 bits and the round cannot be ended |
| GameExamples.StealCanDuplicate | program/src/instructions/hit.rs:244-268 | a played game, from initialize on, in which a steal leaves the thief active, at the turn, with two Alphas of value 5 and no bust recorded |
| DealerProtocol.ShuffleLog | dealer/src/dealer.ts:72-81 | a new shuffle deals a permuted canonical deck that was never committed or served before |
| DealerProtocol.EveryOrderIsDealt | dealer/src/dealer.ts:72-78 | for every permutation of the 94 positions some random words deal exactly that order of the canonical deck |
| DealerProtocol.SystemNextKeepsInv | dealer/src/auto-commit.ts:108-211 | every event, in any order, keeps the system invariant |
| DealerProtocol.SystemRunKeepsInv | dealer/src/auto-commit.ts:219-230 | so does every interleaving of ticks, awaits, cards served and calls to the chain |
| DealerProtocol.OneCommitInFlight | dealer/src/auto-commit.ts:119-122 | at most one tick is past the entry check, at most one commit runs and at most one is on the wire |
| DealerProtocol.RevealsAreSafe | dealer/src/service.ts:291-338 | no card is served before its deck landed on chain, and the leaves of each deck are served once each as 0, 1, 2, ..., with their true cards and proofs |
| DealerProtocol.AgreesAtRest | dealer/src/auto-commit.ts:192-210 | with no tick running, a tree is held iff a committed round is recorded, and if the chain has a deck committed the roots are equal |
| DealerProtocol.ResetIsNeverLive | dealer/src/auto-commit.ts:124-152 | the re-entry branch drops the tree exactly when its snapshot shows neither round nor deck, and then the chain has neither |
| DealerProtocol.CommitIsAccepted | program/src/instructions/commit_deck.rs:57-112 | a commit on the wire is accepted exactly when the game is open and names a dealer |
| DealerProtocol.RevealIsPlayable | dealer/src/dealer.ts:136-168 | a served card passes the on-chain proof check whenever a deck is committed |
| DealerProtocol.ServedCardIsAccepted | program/src/instructions/hit.rs:66-168 | end to end: in a running round the card served for the next draw is accepted from the turn player, no target passed, if and only if that player is active with room in the hand; with two places free, whatever is passed |
| DealerProtocol.ServingIsSettled | dealer/src/service.ts:299-319 | cards are served only when no commit is under way |
| DealerProgress.ServedIff | dealer/src/service.ts:291-338 | in every reachable state a request is served if and only if a tree is held, the recorded round is the requested one, and the index is the number of cards of that deck served so far, below 94 |
| DealerProgress.RequestEffects | dealer/src/service.ts:319-338 | a served request answers with the true card of that index and logs it; a refused one changes nothing |
| DealerProgress.ConfirmedServes | dealer/src/auto-commit.ts:192-210 | once a commit is confirmed, the first card of its deck is served for the round its fetch saw |
| DealerProgress.CommitsIff | dealer/src/auto-commit.ts:162-197 | a tick without a tree starts a commit if and only if it saw no round, no deck and at least two players; otherwise it ends with the dealer unchanged |
| DealerProgress.RoundIsCarried | dealer/src/auto-commit.ts:185-197 | the round a commit was started for stays with it |
| DealerProgress.HealthyTickCommits | dealer/src/auto-commit.ts:108-211 | from any reachable state with no tick running, no tree and a chain waiting for a deck with two players, one undisturbed tick ends with the new root on chain, its round recorded and its first card served |
| DealerService.Dealer.BeginShuffle | dealer/src/dealer.ts:72-78 | the deck in memory becomes the specified fresh shuffle |
| DealerService.Dealer.BuildTree | dealer/src/dealer.ts:80-81 | the tree of the captured deck is stored |
| DealerService.Dealer.GetMerkleRoot | dealer/src/dealer.ts:111-116 | the root of the deck the tree was built from, if any |
| DealerService.Dealer.RevealNextCard | dealer/src/dealer.ts:136-154 | serves the next leaf with its proof and counts it, or refuses and changes nothing |
| DealerService.Dealer.RevealCard | dealer/src/dealer.ts:161-168 | out-of-order requests are refused |
| DealerService.Dealer.Reset | dealer/src/dealer.ts:187-193 | everything of the round is forgotten |
| DealerService.Service.TickStarts | dealer/src/auto-commit.ts:119-124 | the mutex lets a tick in exactly when free, and it waits in the branch the tree decides |
| DealerService.Service.TickEnds | dealer/src/auto-commit.ts:208-210 | the mutex is released |
| DealerService.Service.ResumeHeld | dealer/src/auto-commit.ts:144-151 | the re-entry branch after its fetch, as specified |
| DealerService.Service.ResumeEmpty | dealer/src/auto-commit.ts:162-197 | the guards after the fetch, as specified, and the start of the commit |
| DealerService.Service.ResumeBuilt | dealer/src/dealer.ts:80-90 | the captured tree is stored and the prover gets the deck in memory |
| DealerService.Service.ResumeChecked | dealer/src/commit-tx.ts:91-105 | the proof is stored and the transaction takes root and proof from memory |
| DealerService.Service.CommitThrows | dealer/src/auto-commit.ts:201-210 | a failed commit resets the dealer and frees the mutex |
| DealerService.Service.Confirmed | dealer/src/auto-commit.ts:196-210 | a confirmed commit records its round and frees the mutex |
| DealerService.Service.ServeReveal | dealer/src/service.ts:299-325 | the route serves as specified and counts only what it serves |
| Advisor.FirstSeenMeaning | app/src/lib/advisor.ts:93-100 | the set of risky values holds exactly the Alpha values of the hand, once each |
| Advisor.BustingCounts | app/src/lib/advisor.ts:102-123 | with all revealed cards from the deck, the formula counts the remaining Alphas of the listed values |
| Advisor.AdvisorIsExact | app/src/lib/advisor.ts:87-138 | the formula equals the number of remaining cards whose draw busts, by the program's own check, if and only if the hand is bust-free or every remaining card matches a held value |
| Advisor.CalculateBustProbability | app/src/lib/advisor.ts:87-138 | the loops compute the formula; for whatever cards are left of the deck the size is right, the count is right on a bust-free hand, and the ratio lies in [0, 1] |
| Advisor.SortValues | app/src/lib/advisor.ts:136 | the risky values are returned in ascending order |
| Nicknames.NicknameDb.AssignNickname | faucet/src/nicknames/assign.ts:178-260 | the probe loops give the specified answer and leave the specified rows |
| Nicknames.NicknameDb.ProbeBare | faucet/src/nicknames/assign.ts:225-243 | the bare probes stop at the first free candidate |
| Nicknames.NicknameDb.ProbeSuffixes | faucet/src/nicknames/assign.ts:245-254 | the suffixed probes stop at the first free candidate |
| Nicknames.NicknameDb.TryInsert | faucet/src/nicknames/db.ts:90-97 | an insert succeeds exactly when address and name are both new |
| Nicknames.ProbeReadsStream | faucet/src/nicknames/assign.ts:127-144 | candidate i is the adjective at byte 2i of the concatenated hash blocks, a dash, and the noun at byte 2i+1 |
| Nicknames.CandidatesInOrder | faucet/src/nicknames/assign.ts:225-254 | the bare probes come first, then probe 0 with the suffixes 2 to suffixMax |
| Nicknames.RegistryIsSound | faucet/src/nicknames/assign.ts:178-260 | over any history addresses and names are distinct, and each name is the first candidate no earlier row held |
| Nicknames.RowsStay | faucet/src/nicknames/db.ts:73-79 | rows are never changed or dropped |
| Nicknames.SameAnswerAgain | faucet/src/nicknames/assign.ts:183-195 | once named, an address gets the same name for good and asking changes nothing |
| Nicknames.NeverExhausted | faucet/src/nicknames/assign.ts:65-73 | no call fails while there are fewer than suffixMax rows and at least one bare probe |
| Nicknames.RegistryFills | faucet/src/nicknames/assign.ts:225-254 | addresses whose hashes collide get the candidates one after the other |
| Nicknames.CapacityIsTight | faucet/src/nicknames/assign.ts:245-259 | with one bare probe and a colliding hash, the registry that any suffixMax distinct registrations leave refuses the next address |
| Bytes.LeRoundTrip | clients/js/src/bytes.ts:86-91 | a number survives its k little-endian bytes exactly when it fits |
| Bytes.LeBytesRoundTrip | clients/js/src/bytes.ts:42-54 | bytes survive the way through a number |
| Bytes.LowByteFirst | clients/js/src/bytes.ts:86-91 | byte i of a written number is what remains modulo 256 after i divisions by 256 |
| Bytes.LowByteLast | clients/js/src/bytes.ts:42-54 | reading the bytes backwards as base-256 digits gives the same number |
| Bytes.SliceWritten | program/src/state/game_session.rs:41-55 | a written range reads back and leaves disjoint ranges alone |
| Bytes.AtWritten | program/src/state/game_session.rs:41-55 | writing a field reads back there and leaves a field apart from it alone |
| SessionLayout.FieldsApart | program/src/state/game_session.rs:10-36 | the fields of a GameSession lie inside 395 bytes and do not overlap |
| SessionLayout.WriteChangesOneField | program/src/state/game_session.rs:178-283 | writing any field, with any bytes, changes that field of the record and nothing else |
| SessionLayout.KeysInBytes | program/src/state/game_session.rs:10-32 | at which bytes each key and the Merkle root lie |
| SessionLayout.SeatsInBytes | program/src/state/game_session.rs:21 | at which bytes each turn order slot lies |
| SessionLayout.NumbersInBytes | program/src/state/game_session.rs:13-31 | at which bytes each number lies |
| SessionLayout.CountersInBytes | program/src/state/game_session.rs:11-32 | at which byte each counter and flag lies |
| SessionLayout.GameSessionMut.SetByte | program/src/state/game_session.rs:194-200 | one-byte setters |
| SessionLayout.GameSessionMut.SetFlag | program/src/state/game_session.rs:244-262 | flag setters |
| SessionLayout.GameSessionMut.SetU64 | program/src/state/game_session.rs:248-278 | 64-bit setters; the value reads back |
| SessionLayout.GameSessionMut.SetTreasuryFeeBps | program/src/state/game_session.rs:268-270 | the 16-bit setter |
| SessionLayout.GameSessionMut.SetKey | program/src/state/game_session.rs:206-238 | key setters, the turn order slots among them |
| SessionLayout.DecodeGameSession | clients/js/src/accounts/game-session.ts:40-105 | reading field after field yields the record at the program's offsets, or the same refusals |
| PlayerLayout.FieldsApart | program/src/state/player_state.rs:12-31 | the fields of a PlayerState lie inside 110 bytes and do not overlap |
| PlayerLayout.WriteChangesOneField | program/src/state/player_state.rs:140-233 | writing any field changes that field of the record and nothing else |
| PlayerLayout.AccountInBytes | program/src/state/player_state.rs:12-31 | at which bytes each part of a PlayerState lies, value, type and suit of each card slot among them |
| PlayerLayout.PlayerStateMut.SetByte | program/src/state/player_state.rs:155-204 | one-byte setters |
| PlayerLayout.PlayerStateMut.SetU64 | program/src/state/player_state.rs:210-232 | 64-bit setters; the value reads back |
| PlayerLayout.PlayerStateMut.SetFlag | program/src/state/player_state.rs:198-224 | flag setters |
| PlayerLayout.PlayerStateMut.SetPlayer | program/src/state/player_state.rs:163-165 | the key setter |
| PlayerLayout.PlayerStateMut.SetCardAt | program/src/state/player_state.rs:175-179 | a card slot is set, the other nine keep their cards |
| PlayerLayout.PlayerStateMut.PushCard | program/src/state/player_state.rs:181-188 | the push on bytes |
| PlayerLayout.PlayerStateMut.PopCard | program/src/state/player_state.rs:190-196 | the pop on bytes |
| PlayerLayout.PushAndPop | program/src/state/player_state.rs:181-196 | on hands of at most ten a push appends, a pop drops the last card and undoes a push |
| PlayerLayout.DecodePlayerState | clients/js/src/accounts/player-state.ts:44-103 | reading field after field yields the record at the program's offsets with only the cards in hand, or the refusal of the first bad value |
| PlayerLayout.ReadHand | clients/js/src/accounts/player-state.ts:64-75 | all ten slots are read, only those in hand are checked and kept |
| Digits.ParseZeroPadded | clients/js/src/bytes.ts:123-145 | the decimal text of every 64-bit number, with any leading zeros, is accepted with its value |
| Digits.ParsedIsZeroPadded | clients/js/src/bytes.ts:123-145 | and nothing else is accepted |
| Digits.U64RoundTrip | clients/js/src/bytes.ts:123-145 | printed numbers parse back exactly up to the 64-bit maximum |
| Digits.DecimalLast | clients/js/src/bytes.ts:123-145 | a decimal text ends in the remainder by ten, after the text of the quotient |
| Hex.WriteHex | program/src/utils/events.rs:129-149 | the writer puts as many whole hex pairs of the key as fit into the buffer and nothing past them |
| Hex.AllPairsMatch | app/src/lib/event-render.ts:20-38 | the left-to-right search finds 32 pairs in 64 characters exactly when all are hex digits |
| Hex.HexPubkeyToBytes | app/src/lib/event-render.ts:31-48 | a key is accepted exactly when it is 64 hex digits, and decodes to their pairs |
| Hex.HexRoundTrip | app/src/lib/event-render.ts:31-48 | what the program writes decodes to the key |
| Hex.HexInPairs | program/src/utils/events.rs:129-149 | each byte is two lowercase hex digits, the high half first |
| Hex.BytesRoundTrip | dealer/src/merkle.ts:144-162 | 32 bytes survive the way through a number |
| Hex.BigintRoundTrip | dealer/src/merkle.ts:144-162 | a number survives its 32 bytes exactly when it is below 2^256 |
| Hex.HighByteFirst | dealer/src/merkle.ts:144-162 | the number is the value of the bytes as base-256 digits, the first byte highest |
| Events.AcceptsExactlyPrinted | clients/js/src/events.ts:112-150 | a line is accepted exactly when it is the print of a known kind and printable fields, and yields them |
| Events.EventRoundTrip | clients/js/src/events.ts:112-150 | with or without the log prefix, a printed line gives back its kind, and all its fields exactly when no key is __proto__ |
| Events.TwoFieldLine | program/src/utils/events.rs:14-18 | a line of two fields written out: prefix, colon, equals signs and bar |
| Events.ProtoIsLost | clients/js/src/events.ts:205-214 | a field named __proto__ is lost |
| Events.ParseFieldList | clients/js/src/events.ts:201-217 | the field loop computes the specified object or refusal |
| Events.ParseTransactionEvents | clients/js/src/events.ts:165-188 | one event per line that parses, in order, with its position in the full log |
| Events.JoinSplit | clients/js/src/events.ts:206 | joining the split parts gives the text back |
| Events.SplitJoin | clients/js/src/events.ts:206 | splitting joined parts gives them back, when none holds the separator |
| EventLines.EveryLineFits | program/src/utils/events.rs:31-41 | every line of all sixteen kinds has at most 188 bytes, for all values |
| EventLines.LongestLine | program/src/utils/events.rs:38-41 | an end_round line reaches 188 |
| EventLines.PrintedIsParsed | clients/js/src/events.ts:112-150 | the client reads from every line the program prints its kind and all its fields |
| EventLines.EventSays | clients/js/src/events.ts:112-150 | from the line of each of the sixteen kinds the client gets that kind, and under each literal key its own argument: the number as its parser reads it, the key in hex, the flag as true or false |
| EventLines.ParsedDetermines | clients/js/src/events.ts:112-150 | the parsed event determines every key, number and flag that was printed |

## Left out

- GameSpec.CommitDeck: the Groth16 check is idealised; an accepted proof carries a permuted canonical deck whose root is the public input.
- Program.GameAccounts.CommitDeck: whether the proof verifies is an input, equal to the idealised acceptance.
- Program.GameAccounts.Hit: the PlayerState passed along is the caller's own in this game; one game only.
- Program.GameAccounts.InitVault: account creation and the token program's own checks are reduced to the guards on signer, authority and an existing vault.
- Program.GameAccounts.JoinRound: the derived address of the new account, writable flags and program ids are not checked.
- Program.GameAccounts.EndRound: the checks on the two token accounts are inputs, and the vault passed is the game's own.
- Merkle.Complete: Poseidon itself is not modelled; hashes are a free datatype, so collisions do not exist.
- Shuffle.ChoiceIsNearlyUniform: the source of the random words is not modelled; they are inputs.
- DealerProtocol.SystemRunKeepsInv: timers, retries, a second dealer, a restart with a commit still on the wire and snapshots older than their request are outside the model.
- DealerService.Dealer.BuildTree: proof generation and local verification are awaits that succeed with a proof of the captured deck, or throw.
- DealerService.Service.ServeReveal: parsing of the request path and the JSON answers are not modelled.
- Nicknames.NicknameDb.AssignNickname: the hash is an arbitrary function to 32-byte blocks; one process owns the database, so no other registration interleaves.
- Advisor.CalculateBustProbability: division is over reals, not floating point.
- EventLines.PrintedIsParsed: the logger's own number formatting is taken to be plain decimal.
- Hex.HexPubkeyToBytes: the base58 text of the decoded bytes is not part of this model.
- Account ownership, writable flags, PDA derivation, discriminators, rent and lamports: a caller is who it claims to be, and accounts are the game's own.
- Reopening a closed game under the same id, and house, mint, game id, last action slot, total wins and total games, which no rule of the game reads.
- The bounty board handlers, apart from the lines they print: single-branch checks.
- Minting, the faucet's HTTP routes and rate limits: the in-flight pattern of the dealer again, in a simpler form.
- `check_pushflip`, the hit-or-stay recommendation and the off-chain airdrop bonus: one expression each, or outside the files.
- The web application, wallet bridge, scripts and deployment: user interface and I/O.
