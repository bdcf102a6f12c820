# Cutthroat Race: a verified model of the game core

This project models the rules engine of *Cutthroat Race*, a board game for
two or more players racing along a 98-cell track (cell 0 is the start, cell
97 the finish safe). On their turn a player rolls dice, moves, and lands on
a cell that may act: a shop (Joe's Shop, "Лавка Джо"), good and bad chests
(event cards with a good and a bad side), Ta-Dam cells (house rules that
change the game for everybody, at most three at a time), portals, mines,
tornadoes, duels, a bicycle, tribute, "oh no" and the fortunate setup.
Players carry coins and a hand of at most three shop cards, some passive,
some played from the hand.

The model is laid out file by file after the game core:

- `config.dfy`: the game constants and the cell types.
- `boards.dfy`: the track: its layout, the `Board` class whose cells are
  added one by one, and move resolution (clamped to the track).
- `cards.dfy`: the cards, the `Deck` class (draw pile, discard pile,
  reshuffle when the draw pile is empty), and the three decks the game
  builds (shop, Ta-Dam, events).
- `state.dfy`: the `Player` class (coins, hand, used cards, turn flags),
  the FIFO queue of active Ta-Dam rules, and the `GameState` class.
- `rules.dfy`: pure functions and lemmas that give the engine's effects a
  meaning as functions on a table of player values (`PlayerView`): the
  overtake theft, levies and transfers, tribute, the duel roll, last place,
  card effects, and the totals of coins and of cards in hand that they keep
  or change.
- `engine.dfy`: the `GameEngine` class: rolling, movement options, moving
  and landing (mines, passive cards, Ta-Dam rules, the cell's own action),
  the answers to pending choices (shop, duel, tornado, Ta-Dam, target,
  discard), chest-card effects, playing a card from the hand, the start
  and end of a turn, and the finish attempt.

How the model represents the program:

- Players are referred to by seat; a player's uid is their seat.
- Randomness is a parameter: the engine holds a die stream `dice` (the
  n-th roll of the game, each in 1..6) and a count of the rolls used so far.
  A shuffle is any permutation of the pile.
- A Python exception becomes an `Outcome` of `Raised(fault)`, returned at
  the point where the program raises. Any state changed before that point
  stays changed, as in the program. The faults are: `NotImplementedError`,
  the unhandled-cell exception, drawing from an exhausted deck, changing the
  rule deque while it is being walked, running out of move depth, an unknown
  uid, an index out of range, and a missing card.
- The events the program leaves for the interface (`pending_events`) are a
  sequence of `GameEvent` values with the data each one carries.

## Model

| member | source | states |
|---|---|---|
| Boards.Board.constructor | game_core/board.py:12-15 | a new board holds exactly the track layout, with 97 as the highest cell id |
| Boards.Board.FillMap | game_core/board.py:17-120 | adding the layout cell by cell from an empty map yields the whole layout and max id 97 |
| Boards.Board.AddCell | game_core/board.py:122-125 | the cell is stored under its id (replacing any old one) and the max id grows to that id when it is larger |
| Boards.Board.ResolveMove | game_core/board.py:127-143 | the target of a move is clamped to the track: below 0 gives the start, at or past the max id gives the finish, anything else is exact |
| Boards.ResolveMoveIsClamp | game_core/board.py:127-143 | move resolution is exactly the clamp of start + steps into [0, max id] |
| Boards.ResolveMoveNoWrap | game_core/board.py:127-143 | a forward move never goes back, a backward move never goes forward, and zero steps stays put |
| Boards.Board.GetCell | game_core/board.py:145-146 | a lookup finds a cell exactly when its id is in the map, and returns that cell |
| Boards.GetCellOnTrack | game_core/board.py:145-146 | on the built board a lookup succeeds exactly for ids 0..97, and returns the layout's cell |
| Boards.LayoutShape | game_core/board.py:17-120 | the layout covers ids 0..97, each cell knows its own id, the start is cell 0 only and the finish safe is cell 97 only |
| Boards.PortalsPaired | game_core/board.py:29-85 | a cell is a portal exactly when it has a target; every portal target is another portal on the track that leads back |
| Boards.BuiltKinds | game_core/board.py:17-120 | the cell types of the built board are the layout's cell types |
| Boards.Board.CellKinds | game_core/board.py:145-146 | the board's cell types, listed by id |
| Boards.FirstOfKind | game_core/engine.py:532-536 | the first cell of a type in a range, or none; no earlier cell in the range has that type |
| Boards.LastOfKind | game_core/engine.py:541-545 | the nearest cell of a type behind a position, or none; no cell in between has that type |
| Cards.Deck.constructor | game_core/cards.py:54-58 | a new deck's draw pile is a shuffle of the cards given, and its discard pile is empty |
| Cards.Deck.Shuffle | game_core/cards.py:60-61 | shuffling keeps the same cards |
| Cards.Deck.Draw | game_core/cards.py:63-69 | a draw succeeds exactly when enough cards are left in both piles; it takes cards from the top, reshuffling the discards in when the pile runs out; no card is lost or made up |
| Cards.Deck.DrawOne | game_core/cards.py:63-69 | a single draw takes the top card, or a card of the reshuffled discards, and fails only when both piles are empty |
| Cards.Deck.Discard | game_core/cards.py:71-72 | the card goes on top of the discard pile |
| Cards.Deck.Reshuffle | game_core/cards.py:74-79 | with no discards nothing changes; otherwise the discards join the draw pile and the discard pile is emptied |
| Cards.DrawnAll | game_core/cards.py:63-69 | a draw that empties both piles has taken every card that was in them |
| Cards.ExhaustedDeck | game_core/cards.py:63-69 | when every card the deck has ever held is handed out, both piles are empty |
| Cards.DoubleEach | game_core/cards.py:132-134 | the shop deck list holds each template twice, in order |
| Cards.DoubledShape | game_core/cards.py:132-134 | the doubled list is twice as long, holds each card twice, and slot k holds template k/2 |
| Cards.EventCardsOf | game_core/cards.py:330-332 | event card i is named `event_i` and has the i-th pair of sides |
| Cards.CreateShopDeck | game_core/cards.py:83-135 | the shop deck holds the ten shop templates twice each |
| Cards.CreateTadamDeck | game_core/cards.py:138-214 | the Ta-Dam deck holds the sixteen rule cards once each |
| Cards.CreateEventDeck | game_core/cards.py:217-333 | the event deck holds the cards built from the event pairs |
| Cards.ShopDeckContents | game_core/cards.py:83-135 | the shop deck has 20 cards: each of the 10 distinct templates exactly twice, and nothing else |
| Cards.RuleDeckContents | game_core/cards.py:138-214 | the Ta-Dam deck has 16 rule cards |
| Cards.EventDeckContents | game_core/cards.py:319-333 | the event deck is the single card `event_0`: place mines (1) on its good side, everybody discards to one shop card on its bad side |
| Cards.DistinctOnce | game_core/cards.py:83-214 | in a list of shop or rule cards with distinct effects, each card occurs once |
| Cards.TwiceEach | game_core/cards.py:132-134 | doubling a list of distinct cards gives each card exactly twice |
| Cards.ShopDistinct | game_core/cards.py:85-130 | the ten shop templates have ten different effects |
| State.Player.constructor | game_core/state.py:9-25 | a new player is on the start with 10 coins, an empty hand, no used cards and every flag cleared |
| State.Player.Pay | game_core/state.py:27-34 | payment succeeds exactly when the player can afford it; only then are the coins taken |
| State.Player.AddCoins | game_core/state.py:36-37 | the balance becomes the old balance plus the amount, floored at 0 |
| State.Player.AddCard | game_core/state.py:39-44 | a card is added at the end of the hand exactly when the hand holds fewer than three |
| State.Player.RemoveCard | game_core/state.py:46-49 | a valid index takes that card out of the hand and returns it; any other index changes nothing and returns nothing |
| State.Player.MarkCardUsed | game_core/state.py:51-52 | the index joins the used cards; nothing else changes |
| State.Player.ResetTurnFlags | game_core/state.py:54-60 | used cards and the per-turn flags are cleared; coins, hand, position and the skip and finish flags are kept |
| State.GameState.constructor | game_core/state.py:63-73 | the given number of new players, the first player to move, three fresh decks and no active rules |
| State.GameState.CurrentPlayer | game_core/state.py:75-77 | the current player is the one seated at the current index |
| State.GameState.NextTurn | game_core/state.py:79-82 | the turn passes to the next seat (wrapping round); only the new current player has their turn flags reset |
| State.GameState.AddRule | game_core/state.py:84-89 | the rule joins the end of the queue; when three rules are active the oldest is dropped |
| State.QueueHoldsNewest | game_core/state.py:84-89 | adding rules one by one leaves the three newest of all rules, oldest first |
| State.NewestOfNewest | game_core/state.py:84-89 | trimming the queue before more rules arrive does not change which rules end up kept |
| Rules.PyIndex | game_core/engine.py:789-792 | a list index is valid exactly from -n to n-1; a negative index counts from the end |
| Rules.SumOfDice | game_core/engine.py:69 | a sum of die faces lies between the number of dice and six times that |
| Rules.Insert | game_core/engine.py:79 | inserting into a strictly increasing list keeps it strictly increasing and adds exactly that value |
| Rules.OptionsMembers | game_core/engine.py:72-79 | a number is among the options built die by die exactly when it is a die, or a die + 1 with the magic cube |
| Rules.DuelRoll | game_core/engine.py:440-453 | the attacker rolls die + 2; a tie (no winner) exactly when the attacker's die is 2 below the defender's; otherwise the higher roll wins |
| Rules.StealRoundMoves | game_core/engine.py:111-116 | under the overtake rules the victim's balance does not depend on the mover's; coins only pass from victim to mover, and their sum is kept |
| Rules.OneOvertakeRule | game_core/engine.py:113-116 | one overtake rule of value x takes min(coins, x) from the victim |
| Rules.OvertakeOthers | game_core/engine.py:107-118 | every other player the move passed or reached is robbed by every overtake rule; nobody else changes |
| Rules.OvertakeSeat | game_core/engine.py:108-118 | when the pass reaches seat j it is robbed by the overtake rules if the move passed or reached it, and left as it was otherwise |
| Rules.OvertakeReached | game_core/engine.py:108-118 | a seat the pass has gone beyond keeps what the pass made of it |
| Rules.OvertakeUntouched | game_core/engine.py:108-118 | a seat the pass has not reached yet is as it was |
| Rules.OvertakeStepOther | game_core/engine.py:110-118 | checking one seat robs that seat if it was overtaken and changes no other seat but the mover's |
| Rules.OvertakeStepMover | game_core/engine.py:110-118 | checking one seat changes only the mover's coins, and with non-negative rule values never lowers them |
| Rules.OvertakeStepConserves | game_core/engine.py:110-118 | with non-negative rule values, checking one seat keeps the total of coins |
| Rules.OvertakeMover | game_core/engine.py:107-118 | the overtake pass changes only the mover's coins |
| Rules.OvertakeMoverGains | game_core/engine.py:107-118 | the mover never loses coins in the overtake pass |
| Rules.OvertakeConserves | game_core/engine.py:107-118 | the overtake pass keeps the total of coins on the table |
| Rules.TransferConserves | game_core/engine.py:240-245 | a transfer between two players keeps the total of coins |
| Rules.TransferSides | game_core/engine.py:240-245 | a transfer never enriches the payer or impoverishes the payee, and touches nobody else |
| Rules.LevyStepConserves | game_core/engine.py:553-576 | a levy on one player keeps the total of coins |
| Rules.LeviesConserve | game_core/engine.py:240-245 | a round of levies over the table keeps the total of coins |
| Rules.LevyStepSides | game_core/engine.py:553-576 | a levy moves coins only towards the mover (theft) or only away from them (tax) |
| Rules.LeviesDirection | game_core/engine.py:240-245 | after a tax round the mover has no more and everybody else no less; after a theft round the other way round |
| Rules.PassiveIncomeGrows | game_core/engine.py:153-166 | passive cards pay only on red and empty cells, and never take coins away |
| Rules.MineResult | game_core/engine.py:322-327 | the mine touches only the player who landed |
| Rules.MinePays | game_core/engine.py:322-327 | a mine roll of 2 to 5 pays the player 10 coins and adds 10 to the table; 1 and 6 pay nothing |
| Rules.TributePayment | game_core/engine.py:386-390 | each player pays min(coins, roll) |
| Rules.TributeStepConserves | game_core/engine.py:384-391 | one player's tribute leaves the collector alone and moves exactly the amount paid into the pot |
| Rules.TributesConserve | game_core/engine.py:382-391 | the tribute round takes from the other players exactly what it collects |
| Rules.TributeNextConserves | game_core/engine.py:384-390 | one more player paying tribute leaves the collector alone, never lowers the pot, and moves into the pot exactly what that player loses |
| Rules.TributeConserves | game_core/engine.py:382-391 | tribute keeps the total of coins, and the collector never loses |
| Rules.Collider | game_core/engine.py:271-280 | the first other player standing on the mover's cell, or none when nobody else is there |
| Rules.AllPay | game_core/engine.py:562-563 | every player pays the amount or, if they cannot, keeps their coins |
| Rules.BankPaysOthersTotal | game_core/engine.py:549-551 | the bank adds the amount once for every player but the source |
| Rules.AllPayTotal | game_core/engine.py:562-563 | a global loss removes between nothing and the amount per player |
| Rules.Leaders | game_core/engine.py:637 | the players strictly ahead of the source, in seating order |
| Rules.Others | game_core/engine.py:83 | every seat but one, in order |
| Rules.MinPosition | game_core/engine.py:839 | the smallest position on the table, held by some player |
| Rules.LastAmong | game_core/engine.py:840 | the seats on a given position, in order |
| Rules.LastIsMinimum | game_core/engine.py:837-843 | a player is last exactly when nobody is behind them; there is always a last player, and when all stand together all are last |
| Rules.CoinEffectTotals | game_core/engine.py:519-576 | how each coin-only chest effect changes the total of coins: gain adds, loss removes when affordable, the bank adds per other player, thefts keep it, a global loss removes at most the amount per player |
| Rules.GiftTotal | game_core/engine.py:726-739 | giving 5 keeps the total of coins; giving 10 adds 10, since the code does not charge the giver |
| Rules.TakeCardKeeps | game_core/engine.py:489-495 | a taken card ends in the taker's hand or goes back to the shop, and is the victim's card; a bad index changes nothing |
| Rules.AddedCard | game_core/state.py:39-44 | a card added to a hand joins the cards in all hands |
| Rules.RemovedCard | game_core/state.py:46-49 | a card removed from a hand leaves the cards in all hands |
| Rules.LastIncomeGrows | game_core/engine.py:180-187 | without an income rule the last player's coins stay; with non-negative values they never fall |
| Rules.CountEffectNone | game_core/engine.py:209-218 | no rule has the effect exactly when its count is zero |
| Rules.CountEffectStep | game_core/engine.py:209-218 | counting one more rule of the queue adds one exactly when that rule carries the effect |
| Rules.Grapple | game_core/engine.py:816-823 | the hook and the harpoon move at most the two players involved |
| Rules.GrappleMeets | game_core/engine.py:816-823 | within reach (0 < gap <= 10 ahead) the hook pulls the target back onto the player and the harpoon carries the player forward onto the target; out of reach nothing changes; coins and hands never change |
| Rules.CardRequest | game_core/engine.py:789-792 | a request names a real player, a card in their hand and (if given) a real target; plain indices look up exactly those |
| Rules.ShopPurchase | game_core/engine.py:407-410 | buying costs 5 coins when affordable; the card is added exactly when it was paid for and the hand had room |
| Rules.TornadoAnswer | game_core/engine.py:459-468 | a player who chose to pay and has 10 coins pays 10 and stays; anyone else flies to the tornado for free |
| Rules.TargetedCoinsLocal | game_core/engine.py:665-755 | an aimed coin effect changes only the coins of the source and the target |
| Rules.TargetedCoinsTotal | game_core/engine.py:665-755 | stealing keeps the total and never costs the thief; giving 5 keeps it, giving 10 adds 10; forcing a loss removes the value when the target can pay |
| Rules.Opponents | game_core/engine.py:636-641 | the candidates for an aimed effect: every other player, or only those ahead for the leader theft |
| Rules.AimAtOpponent | game_core/engine.py:643-654 | a given target is hit (the leader theft only with someone ahead); without one the only candidate is hit, and with two players always the other |
| Engine.TornadoDecisions | game_core/engine.py:329-337 | one tornado decision per other player, each pointing at the tornado's cell |
| Engine.TornadoDecisionsNext | game_core/engine.py:331-337 | seat j is asked after seats 0 .. j - 1, unless it is the mover's own seat |
| Engine.GameEngine.constructor | game_core/engine.py:18-25 | a new game has the track, the given number of new players, no rules, no mines, no events and no winner |
| Engine.GameEngine.DiceTotal | game_core/engine.py:214-215 | k rolls pay between k and 6k coins |
| Engine.GameEngine.RollDie | game_core/engine.py:324 | a roll takes the next die of the stream, between 1 and 6 |
| Engine.GameEngine.RollDice | game_core/engine.py:33-36 | rolling n dice takes the next n dice of the stream |
| Engine.GameEngine.RulesHave | game_core/engine.py:40-41 | whether an active rule has an effect |
| Engine.GameEngine.RollRules | game_core/engine.py:38-53 | flags a double under the double-move rule; a six with the six-skip rule costs the next turn |
| Engine.GameEngine.RollFor | game_core/engine.py:27-54 | three dice on the fortune cube, two from cell 24 on, else one; the double and six rules as RollRules, never on the fortune cube |
| Engine.GameEngine.GetRoll | game_core/engine.py:27-54 | the rolls as RollFor; a double under the double-move rule raises (not implemented); otherwise a six under the six-skip rule sets the skip flag and nothing else changes |
| Engine.GameEngine.GetMoveOptions | game_core/engine.py:56-79 | on the fortune cube or from cell 68 the dice are summed (plus one more option with the magic cube); elsewhere each roll (and roll + 1 with the cube), sorted without repeats |
| Engine.GameEngine.DistinctOptions | game_core/engine.py:72-79 | outside the summing zones the options are increasing (sorted, no repeats) and hold exactly each die, and each die + 1 with the magic cube |
| Engine.GameEngine.AnyOpponentInReach | game_core/engine.py:90 | whether some other player is 1 to 10 cells ahead |
| Engine.GameEngine.CanPlayerDoActions | game_core/engine.py:81-95 | true exactly when some card in hand is active, unused, affordable, and has a target it needs (someone in reach for the hook and harpoon, an opponent for the attacks) |
| Engine.GameEngine.UsableNow | game_core/engine.py:84-94 | whether card i of the hand can be played now is UsableAt of the table: active, unused, affordable, with the target it needs |
| Rules.UsableAmongAll | game_core/engine.py:84-95 | the cards checked one by one from the first find a usable card exactly when some card among them is usable |
| Engine.GameEngine.GetLastPlayers | game_core/engine.py:837-840 | the last players are exactly those nobody stands behind; there is at least one |
| Engine.GameEngine.IsLast | game_core/engine.py:842-843 | a player is last exactly when nobody stands behind them |
| Engine.GameEngine.DrawEventFor | game_core/engine.py:195-200 | a chest card is drawn and handed to the player as an event, or the draw fails when the event deck is exhausted |
| Engine.GameEngine.StealFromVictim | game_core/engine.py:111-118 | every overtake rule, in order, moves min(victim's coins, value) from the victim to the mover |
| Engine.GameEngine.StealOnOvertake | game_core/engine.py:106-118 | the table after the overtake pass is OvertakeViews of the table before it |
| Engine.GameEngine.LevyRound | game_core/engine.py:240-245 | the table after a round of levies is Levies of the table before it |
| Engine.GameEngine.Charge | game_core/state.py:30-34 | the player pays exactly when they can afford it; nobody else changes |
| Engine.GameEngine.MovePlayer | game_core/engine.py:97-130 | a backward move only puts the player down on the clamped cell, changing nothing else; a forward move is MoveForward |
| Engine.GameEngine.MoveBack | game_core/engine.py:102-104 | the player is put down on the clamped cell behind them and nothing else changes |
| Engine.GameEngine.MoveForward | game_core/engine.py:102-130 | the overtaken players are robbed; a portal reached carries the player to its twin with no landing and no event |
| Engine.GameEngine.Arrival | game_core/engine.py:120-130 | on a portal the player is carried to its twin and marked as moved, with nothing else changed; elsewhere they land |
| Engine.GameEngine.HandleLanding | game_core/engine.py:132-151 | a mine on the cell goes off: it is removed, the player skips their next turn and nothing else happens; on a red, green, duel or finish-safe cell with no mine and no green-move rule, a landing that completes is the passive income, then the rules' table GlobalTables with the events of GlobalWalk, then the cell's own act (a duel offer against everybody else, or the player finished) |
| Engine.GameEngine.RulesThenCell | game_core/engine.py:148-151 | the rules' walk as CheckGlobalRules, then the cell's act as TriggerCellEffect, composed for the cells with no choice of their own |
| Engine.GameEngine.CheckPassives | game_core/engine.py:153-166 | off an empty cell the passive cards only pay (the magnet on red); nothing else changes |
| Engine.GameEngine.CollectPassiveIncome | game_core/engine.py:155-162 | the player's coins become PassiveIncome of their hand on that cell type |
| Engine.GameEngine.CheckGlobalRules | game_core/engine.py:226-280 | the rules are walked oldest first and a queue changed during the walk raises; with no green-move rule (or off green), a completed walk leaves the queue, the table GlobalTables of the old one (red tax, green income), and the events of GlobalWalk (red-bad and green-good chest cards, the collision duel offer) |
| Engine.GameEngine.GlobalRuleAt | game_core/engine.py:228-280 | one rule of the walk extends the table and the events as GlobalTable and GlobalEvents say, or raises when the queue changed |
| Engine.GameEngine.GlobalRule | game_core/engine.py:228-280 | off red and green cells nothing raises; any rule but the green move that completes acts as GlobalTable and GlobalEvents say, leaving the queue alone |
| Engine.GameEngine.CellKindRule | game_core/engine.py:230-262 | the red rules on red, the green rules on green, nothing elsewhere; a completed rule other than the green move leaves the table as GlobalTable says and adds the events GlobalEvents says |
| Engine.GameEngine.DuelRule | game_core/engine.py:271-280 | only the collision rule adds an event: the duel offer against the first other player on the cell |
| Engine.GameEngine.RuleThenDuel | game_core/engine.py:228-280 | the cell part of a rule followed by its duel part adds exactly the events GlobalEvents says |
| Engine.GameEngine.GlobalWalkStep | game_core/engine.py:228-280 | one more rule acting as GlobalTable and GlobalEvents say carries the fold GlobalTables and the walk GlobalWalk one rule on |
| Rules.GlobalTablesOnlyCoins | game_core/engine.py:228-262 | the rules of a landing change balances only: positions, hands, flags and used cards are kept |
| Rules.GlobalTablesConserve | game_core/engine.py:240-245 | off a green cell the rules of a landing keep the table's total of coins (the red tax only moves coins) |
| Rules.GlobalTablesStep | game_core/engine.py:228-262 | the fold over one more rule is GlobalTable of the fold so far |
| Rules.LeviesOnlyCoins | game_core/engine.py:240-245 | a levy round changes balances only |
| Rules.TransferOnlyCoins | game_core/engine.py:244-245 | a transfer changes balances only |
| Engine.GameEngine.RedRule | game_core/engine.py:232-247 | red-bad hands the player a bad chest card (or raises on an empty deck); red-tax makes the player pay 4 to each other player with two players, else 2, while they can; red-choice raises; other rules do nothing; a completed rule acts as GlobalTable and GlobalEvents say |
| Engine.GameEngine.GreenRule | game_core/engine.py:249-262 | green-good hands a good chest card (or raises); green-income pays the rule's value; the extra-turn rule raises; any other rule but the move does nothing; a completed rule acts as GlobalTable and GlobalEvents say |
| Engine.GameEngine.CollisionDuel | game_core/engine.py:271-280 | a duel offer against the first other player on the same cell, or no event when nobody is there |
| Engine.GameEngine.TriggerCellEffect | game_core/engine.py:282-403 | the start and the fortune cube raise (no branch handles them); red, green and empty cells do nothing; a duel cell offers every other player as opponent; the finish safe marks the player finished |
| Engine.GameEngine.ShopVisit | game_core/engine.py:286-292 | two shop cards are drawn and offered, or the draw fails with fewer than two left |
| Engine.GameEngine.TadamVisit | game_core/engine.py:310-316 | a rule card is drawn and shown, or the draw fails on an empty deck |
| Engine.GameEngine.MineEffect | game_core/engine.py:322-327 | one die: 1 skips the next turn, 6 wins the game, 2-5 pays 10 coins |
| Engine.GameEngine.TornadoEffect | game_core/engine.py:329-337 | every other player, in seating order, gets a tornado decision pointing at the player's cell |
| Engine.GameEngine.FortunateSetup | game_core/engine.py:353-380 | a good chest card for the player, then a free shop card handed to them as Handed and a new rule enqueued as Enqueue, then a bad chest card for each other player in order; nothing else on the table changes; an exhausted deck raises |
| Engine.GameEngine.FortunateGifts | game_core/engine.py:356-370 | a good chest card for the player, the drawn shop card handed to them as Handed (lost with a full hand) and the drawn rule enqueued as Enqueue; an exhausted deck raises |
| State.GameState.DrawEvent | game_core/engine.py:357 | a chest-card draw fails exactly when both event piles are empty, and otherwise hands out one more card; the table does not change |
| State.GameState.DrawRule | game_core/engine.py:369 | a rule draw fails exactly when the Ta-Dam deck is empty, and otherwise hands out one more card; the table does not change |
| State.GameState.DiscardEvent | game_core/engine.py:510 | the chest card goes on top of the event discard pile; the draw pile and the table are untouched |
| Engine.GameEngine.FreeShopCard | game_core/engine.py:364-366 | a shop card is drawn and kept when the hand has room, and lost otherwise |
| State.GameState.DrawShop | game_core/engine.py:365 | a shop draw fails exactly when both shop piles are empty, and otherwise hands out one more card |
| State.GameState.DiscardShop | game_core/engine.py:415-418 | the card goes on top of the shop's discard pile and the draw pile is untouched |
| Engine.GameEngine.GiveCard | game_core/state.py:39-44 | the card joins the player's hand exactly when it has room |
| Engine.GameEngine.NewRule | game_core/engine.py:368-370 | a rule card is drawn and enqueued, or nothing happens on an empty deck |
| Engine.GameEngine.BadEventsForOthers | game_core/engine.py:372-380 | each other player, in seating order, is handed a bad chest card; the table and the rule queue do not change |
| Engine.GameEngine.Tribute | game_core/engine.py:382-391 | one die per other player, in seating order; the table becomes TributeResult of those rolls |
| Engine.GameEngine.CollectTribute | game_core/engine.py:383-390 | the players and the pot after the tribute round are Tributes of the rolls |
| Engine.GameEngine.RemoveHandCard | game_core/state.py:46-49 | a valid index takes that card out of the player's hand; any other index changes nothing |
| Engine.GameEngine.TakeCardBetween | game_core/engine.py:489-495 | the card moves as TakeCard says, and a card with no room goes to the shop's discard pile |
| Engine.GameEngine.DiscardShopCards | game_core/engine.py:417-418 | the cards join the shop's discard pile in order |
| Engine.GameEngine.ResolveShopChoice | game_core/engine.py:405-419 | choosing 2 or more discards both offers; choosing a card buys it as ShopPurchase and discards the other; a bad index raises |
| Engine.GameEngine.BuyCard | game_core/engine.py:408-410 | the player's new state is ShopPurchase of their old one |
| Engine.GameEngine.DiscardOther | game_core/engine.py:415 | the card not chosen goes to the shop's discard pile, or the index raises |
| Engine.GameEngine.ResolveDuelOpponent | game_core/engine.py:421-438 | two dice settle the duel as DuelRoll; a winner gets a reward choice against the loser, a tie gives nothing |
| Engine.GameEngine.ApplyDuelReward | game_core/engine.py:455-495 | money takes up to 10 coins from the loser to the winner; push sends the loser 10 cells back; steal-card takes the chosen card as TakeCard; any other reward does nothing |
| Engine.GameEngine.ResolveTornadoChoice | game_core/engine.py:459-468 | the victim's new state is TornadoAnswer |
| Engine.GameEngine.ResolveTadamChoice | game_core/engine.py:470-472 | the rule joins the queue as AddRule |
| Engine.GameEngine.ResolveDiscardEnemyCard | game_core/engine.py:783-787 | a valid index removes that card from the target's hand (and from play); any other index raises with nothing changed |
| Engine.GameEngine.AttemptFinish | game_core/engine.py:828-835 | an unfinished player does nothing; a finished one rolls, and a 6 or more wins the game |
| Engine.GameEngine.ApplyCoinEffect | game_core/engine.py:519-576 | the table after a coin-only chest effect is CoinEffect of the table before it |
| Engine.GameEngine.BankPayRound | game_core/engine.py:549-551 | every player but the source gains the amount |
| Engine.GameEngine.AllPayRound | game_core/engine.py:562-563 | every player pays the amount if they can |
| Engine.GameEngine.NearestGreenSteps | game_core/engine.py:529-537 | the steps to the first green cell ahead (before the finish), or 3 when there is none |
| Engine.GameEngine.RedBehind | game_core/engine.py:539-545 | the nearest red cell behind the position, or none |
| Engine.GameEngine.RetreatToRed | game_core/engine.py:539-546 | the player is put on the nearest red cell behind them with no landing, or moved 3 back when there is none |
| Engine.GameEngine.DrawTwoBad | game_core/engine.py:578-585 | two bad chest cards are handed to the player, or the draw fails |
| Engine.GameEngine.MoveEffect | game_core/engine.py:521-630 | the backward sides only move the player back (see RetreatEffect); the gamble with a roll of 3 or less pays 10 coins |
| Engine.GameEngine.RetreatEffect | game_core/engine.py:522-625 | moving back, retreating to red and the lose-or-back gamble leave the table as RetreatOutcome says |
| Engine.GameEngine.Gamble | game_core/engine.py:627-630 | a roll of 3 or less pays 10 coins and nothing else changes |
| Engine.GameEngine.RollLoseOrBack | game_core/engine.py:622-625 | a roll of 3 or less costs 5 coins when affordable; a higher roll sends the player 10 cells back |
| Engine.GameEngine.GiveTo | game_core/engine.py:726-739 | the table after a gift is Gift of the table before it |
| Engine.GameEngine.AimCoins | game_core/engine.py:665-755 | the table after an aimed coin effect is TargetedCoins of the table before it, with no event |
| Engine.GameEngine.SeizeCard | game_core/engine.py:689-777 | from an empty hand nothing is taken; with several cards the choice goes to the source; a single card is discarded, or taken by the source (to the discards when they have no room) |
| Engine.GameEngine.DiscardOnlyCard | game_core/engine.py:694-696 | the target's only card goes to the shop's discard pile |
| Engine.GameEngine.ExecuteTargeted | game_core/engine.py:665-777 | every aimed effect but the push leaves the table, the discards and the events as HitOutcome says |
| Engine.GameEngine.ForceBadEvent | game_core/engine.py:676-682 | the target is handed a bad chest card, or the draw fails |
| Engine.GameEngine.AimEffect | game_core/engine.py:632-654 | an aimed effect hits the target AimAt picks; with no single target the choice is put to the source, and the leader theft with nobody ahead does nothing |
| Engine.GameEngine.ApplyEffect | game_core/engine.py:512-663 | the effects that neither move nor aim behave as PlainOutcome, the backward ones as RetreatOutcome, the aimed ones as HitOutcome on AimAt's target |
| Engine.GameEngine.PlainEffect | game_core/engine.py:519-663 | coin effects, unimplemented effects, two bad draws and the last player's income, as PlainOutcome says |
| Engine.GameEngine.ResolveEventCard | game_core/engine.py:497-510 | the chosen side acts as ApplyEffect with no target: as PlainOutcome, RetreatOutcome or HitOutcome on AimAt's pick; a card resolved without an error ends on top of the event discard pile |
| Engine.GameEngine.ResolveTargetChoice | game_core/engine.py:779-781 | an unknown uid raises with nothing changed; otherwise the chosen player is hit as HitOutcome says |
| Engine.GameEngine.SeatOf | game_core/engine.py:780 | the seat of the player with a given uid, found exactly when there is one |
| Engine.GameEngine.CardHit | game_core/engine.py:800-823 | a card played needing no die or chest card only changes positions, of the player and the target at most |
| Engine.GameEngine.CardHitCases | game_core/engine.py:801-823 | at a target, the grenade pushes it back by its value, the hand of fate by 1 (3 players or fewer) or 2, the hook and the harpoon grapple, and any other card changes nothing |
| Engine.GameEngine.Played | game_core/engine.py:795-826 | playing a card costs its player its price, moves no card between hands and marks the slot used |
| Engine.GameEngine.PlayedEffects | game_core/engine.py:798-826 | playing a card takes exactly its price out of the table's coins and keeps every hand |
| Engine.GameEngine.PlayedMeets | game_core/engine.py:816-823 | a hook or harpoon played at someone in reach leaves the two on one cell; out of reach neither moves |
| Engine.GameEngine.CardStrike | game_core/engine.py:801-823 | the grenade, the hand of fate, the hook and the harpoon act as CardHit |
| Engine.GameEngine.CardEffect | game_core/engine.py:800-823 | the voodoo hands the target a bad chest card (or raises); the other cards but the rocket act as CardHit |
| Engine.GameEngine.PlayCard | game_core/engine.py:794-826 | a passive, used or unaffordable card is refused with nothing changed; an accepted card that completes is marked used; a card needing no die or chest card ends as Played; a voodoo at a target completes exactly when a chest card is left, handing the target a bad one with the table as Played, and otherwise raises EmptyDeck with the price paid and the slot unmarked |
| Engine.GameEngine.PlayPaid | game_core/engine.py:799-826 | once the price is paid: a card needing no die or chest card ends as Played; a voodoo at a target hands a bad chest card and ends as Played, or raises EmptyDeck changing nothing more; a completed play marks the slot |
| Engine.GameEngine.MarkPlayed | game_core/engine.py:825 | the slot is marked used and the table is Played |
| Engine.GameEngine.UseCardFromHand | game_core/engine.py:789-826 | a bad player, card or target index raises with nothing changed; otherwise the card is played as PlayCard says: an accepted card that completes is marked used, one that needs no die or chest card is never refused past the checks, and the voodoo at a target as PlayCard |
| Engine.GameEngine.ResolveRequest | game_core/engine.py:790-792 | the lookup of player, card and target is CardRequest |
| Engine.GameEngine.StartRule | game_core/engine.py:180-201 | for a last player, income pays its value, aid gives a shop card to a hand of fewer than three, good-draw hands a good chest card; an exhausted deck raises |
| Engine.GameEngine.LastAid | game_core/engine.py:188-191 | a hand of fewer than three gets exactly one shop card |
| Engine.GameEngine.StartTurnChecks | game_core/engine.py:168-203 | a skipping player has the flag cleared and the turn passes on, the table becoming SkippedTo; otherwise a last player gets every income rule's value, keeps their hand and one good chest card per good-draw rule; anybody else is unchanged |
| Engine.GameEngine.PlayTurnChecks | game_core/engine.py:178-203 | for a player who does not skip, only their own seat changes: a last player as StartedFrom with GoodDraws, anybody else not at all |
| Engine.GameEngine.RulesForLast | game_core/engine.py:178-203 | the start-of-turn rules act only on a last player |
| Engine.GameEngine.SkipTurn | game_core/engine.py:171-176 | the skip flag is cleared and the turn passes to the next seat, whose turn flags are reset; the table becomes SkippedTo |
| State.SkippedTo | game_core/state.py:79-82 | the skipper's flag is cleared and the next seat's flags reset; no other seat changes, and no coins, position or hand anywhere |
| Engine.GameEngine.LastPlayerRules | game_core/engine.py:180-201 | every rule, oldest first, as StartRule; the income of all income rules and a good card per good-draw rule |
| Engine.GameEngine.EndRule | game_core/engine.py:212-224 | for a last player, the dice rule pays one roll and touches nobody else |
| Engine.GameEngine.DiceIncome | game_core/engine.py:214-215 | the player gains one roll of the die |
| Engine.GameEngine.EndTurnChecks | game_core/engine.py:205-224 | a player who is not last is unchanged; a last player with no move rule gains one roll per dice rule and nobody else changes |
| Engine.GameEngine.LastEndRules | game_core/engine.py:209-224 | the rules are walked oldest first; with no move rule, one roll per dice rule is paid to the player and the queue is never changed |
| Engine.GameEngine.EndRuleAt | game_core/engine.py:209-224 | one rule of the walk: with no move rule the player has gained one roll per dice rule seen so far and the queue is unchanged; a change of the queue raises |

## Left out

- Logging, the `GameLogger`, the user interface (`ui/`) and `main.py` are
  not part of this model. Names, descriptions and sprite ids of cards and
  cells are dropped; a card keeps its uid, effect, cost, value and
  passive flag.
- `random` is not modelled: dice come from the die stream, and a shuffle is
  any permutation of the pile.
- Chains of moves (a travelator, a bicycle or a green-move rule moving a
  player who just landed) are bounded by a budget of 200 nested moves
  (`MoveDepth`), standing for Python's recursion limit; a move that runs out
  of it raises. The position alone does not bound the chain, since a portal
  can carry a player back between two sibling moves.
- The `print` fallback for an effect with no branch is a no-op.
- `state.next_turn` takes a logger it uses only to count turns, yet
  `start_turn_checks` calls it without one; the model keeps only the index
  advance and the flag reset.
- The first `pairs_data` list of `create_event_deck` is overwritten before
  use; only the second one (a single card) is modelled.
- Python's `deque` raises a `RuntimeError` when it changes while being
  walked; the model detects any change to the rule queue during the walk
  and raises `DequeMutated` then.
- Engine.GameEngine.MovePlayer: the forward case is stated only for a portal target (and through the lemmas about the overtake pass); what a landing does is stated by the members it calls.
- Engine.GameEngine.HandleLanding: the composed landing is stated only for red, green, duel and finish-safe cells with no green-move rule; an empty cell's passives, a green move and the cells with an action of their own can move players anywhere, and each has its own contract.
- Engine.GameEngine.EmptyPassives: states only that the game stays well formed and events are only added; the travelator's move can land anywhere.
- Engine.GameEngine.CheckGlobalRules: on a green cell with a green-move rule in the queue only the queue check is stated, since the move can land anywhere.
- Engine.GameEngine.CellAction: states only that the game stays well formed; each cell's action has its own contract (ShopVisit, DrawEventFor, TadamVisit, MineEffect, TornadoEffect, FortunateSetup, Tribute).
- Engine.GameEngine.OthersForward: states only that the game stays well formed; each move can land anywhere.
- Engine.GameEngine.AdvanceEffect: states only that the game stays well formed; each move can land anywhere.
- Engine.GameEngine.PushTarget: states only that the game stays well formed; the push can land anywhere.
- Engine.GameEngine.ResolveEventCard: a side that moves players forward (and the enemy push) is not stated, as in ApplyEffect.
- Engine.GameEngine.CardEffect: the rocket is not stated, since its move can land anywhere.
- Engine.GameEngine.PlayCard: an accepted rocket is stated only as paid for and, when its move completes, marked used; the move itself can land anywhere.
- Engine.GameEngine.UseCardFromHand: the rocket is stated only as PlayCard states it.
- Engine.GameEngine.ExecuteTargeted: the enemy push (a die roll, then a move that lands) is not stated.
- Engine.GameEngine.EndTurnChecks: with a move rule active only the queue check is stated, since the move can land anywhere.
- Rules.BankPaysOthersTotal: states the total only, not each player's new balance (BankPaysOthers states that as its definition).

## Behaviour of the code that the model keeps

The model follows the code where the card texts or the design say
something else:

- The hook pulls the target back onto its player and the harpoon carries
  its player forward onto the target, the reverse of what the card texts
  say.
- Giving 10 coins to a target grants them without charging the giver.
- Landing on the start or on the fortune cube (cell 40) reaches no branch
  of the cell action and raises.
- A card is lost when a purchase fails, when the fortunate setup's free
  card meets a full hand, and when an enemy card is discarded by choice.
- "Oh no" and "lose coins" take nothing from a player who cannot pay in
  full.
- All players tied for the rearmost position are last.
- The landing keeps the type of the cell first landed on, even when a
  passive card or a rule moved the player on in the meantime.
