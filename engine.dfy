/**
 * The rules engine: rolling, moving and landing, the cell effects, the
 * chest-card effects and the answers to the decisions it hands to the
 * players.  Decisions are queued as GameEvents at the back of
 * `pendingEvents`; the engine itself never removes one.
 *
 * Randomness enters as a die stream fixed at construction (`dice`, read
 * from position `rollsUsed` on).  A Python exception becomes a `Raised`
 * outcome: the method stops there and whatever it changed so far stays
 * changed, as it would in Python.
 */
module Engine {
  import opened Wrappers
  import opened Config
  import opened Boards
  import opened Cards
  import opened State
  import opened Rules

  /** A decision the engine leaves to a player (or to the interface). Players are seat numbers. */
  datatype GameEvent =
    | ShopOffer(player: nat, cards: seq<ShopItem>)
    | EventCardDrawn(player: nat, card: ChestCard, isGood: bool)
    | TadamShow(player: nat, rule: HouseRule)
    | DuelChooseOpponent(player: nat, opponents: seq<nat>)
    | DuelChooseReward(player: nat, loser: nat, atkRoll: int, defRoll: int)
    | TornadoDecision(player: nat, targetPos: int)
    | ChooseTarget(player: nat, effect: EffectId, value: int, opponents: seq<nat>)
    | ChooseCardToDiscard(player: nat, target: nat, cards: seq<ShopItem>)

  /** The exceptions the engine's Python code can raise. */
  datatype Fault =
    | NotImplemented            // a rule or effect the code marks as not implemented
    | UnhandledCell(kind: CellType)  // landing on a cell type with no branch
    | EmptyDeck                 // pop from an empty draw pile after a failed reshuffle
    | DequeMutated              // the rule queue changed while it was being walked
    | RecursionLimit            // moves nested deeper than the interpreter allows
    | NoSuchPlayer              // no player has the requested uid
    | IndexOutOfRange           // a list index outside the list
    | MissingCard               // a card was expected where there was none
    | NoSuchCell                // a cell looked up off the board

  datatype Outcome = Done | Raised(fault: Fault)

  /** The duel rewards a winner can pick; any other choice does nothing. */
  datatype Reward = Money | Push | StealCard | NoReward

  /** `e` hands player `p` a chest card as a good (or bad) event. */
  predicate HandsEvent(e: GameEvent, p: nat, isGood: bool)
  {
    e.EventCardDrawn? && e.player == p && e.isGood == isGood
  }

  /** One tornado decision for each of `seats`, all pointing at cell `pos`. */
  function TornadoDecisions(seats: seq<nat>, pos: int): (evs: seq<GameEvent>)
    ensures |evs| == |seats| && forall i :: 0 <= i < |seats| ==> evs[i] == TornadoDecision(seats[i], pos)
  {
    seq(|seats|, i requires 0 <= i < |seats| => TornadoDecision(seats[i], pos))
  }

  /**
   * The decisions asked of the first `k` seats, for every `k`: seat `k` is
   * asked after seats `0 .. k - 1`, unless it is the mover's own seat `p`.
   */
  ghost method TornadoPlan(n: nat, p: nat, pos: int) returns (t: seq<seq<GameEvent>>)
    ensures |t| == n + 1 && t[0] == [] && t[n] == TornadoDecisions(Others(n, p), pos)
    ensures forall k :: 0 <= k < n ==> t[k + 1] == t[k] + (if k != p then [TornadoDecision(k, pos)] else [])
  {
    t := seq(n + 1, k requires 0 <= k <= n => TornadoDecisions(Others(k, p), pos));
    forall k | 0 <= k < n
      ensures t[k + 1] == t[k] + (if k != p then [TornadoDecision(k, pos)] else [])
    {
      TornadoDecisionsNext(k, p, pos);
    }
  }

  /** Seat `j` is asked after seats `0 .. j - 1`, unless it is the mover's own seat `p`. */
  lemma TornadoDecisionsNext(j: nat, p: nat, pos: int)
    ensures TornadoDecisions(Others(j + 1, p), pos) ==
              TornadoDecisions(Others(j, p), pos) + (if j != p then [TornadoDecision(j, pos)] else [])
  {
    if j != p {
      assert Others(j + 1, p) == Others(j, p) + [j];
    }
  }

  /**
   * What an aimed card effect of `s` on `t`'s hand (from `vs`) leaves
   * behind: nothing is taken from an empty hand; with several cards the
   * choice goes to `s`; a single card is discarded to the shop, or taken by
   * `s` (see TakeCard), going to the shop's discard pile when `s` has no room.
   */
  ghost predicate SeizeOutcome(e: EffectId, s: nat, t: nat, vs: seq<PlayerView>, discard: seq<ShopItem>, pending: seq<GameEvent>,
                               vs': seq<PlayerView>, discard': seq<ShopItem>, pending': seq<GameEvent>)
    requires s < |vs| && t < |vs|
  {
    var h := vs[t].hand;
    if |h| == 0 then vs' == vs && discard' == discard && pending' == pending
    else if |h| > 1 then vs' == vs && discard' == discard && pending' == pending + [ChooseCardToDiscard(s, t, h)]
    else if e == DiscardEnemyShopCard then
      vs' == vs[t := vs[t].(hand := [])] && discard' == discard + [h[0]] && pending' == pending
    else
      var taken := TakeCard(vs, t, s, 0);
      && vs' == taken.0 && pending' == pending
      && discard' == discard + (if taken.1.Some? then [taken.1.value] else [])
  }

  /**
   * What an aimed effect `e` of `s` on `t` leaves behind, from the seats
   * `vs`, the shop's discard pile, the number of chest cards left to draw
   * and the queue: the coin effects as TargetedCoins, a bad event for `t`
   * (or an empty-deck error), the card effects as SeizeOutcome, nothing for
   * an effect with no aimed branch; the double turn is not implemented.
   * The push is left to MovePlayer.
   */
  ghost predicate HitOutcome(e: EffectId, s: nat, t: nat, value: int,
                             vs: seq<PlayerView>, discard: seq<ShopItem>, chests: nat, pending: seq<GameEvent>,
                             vs': seq<PlayerView>, discard': seq<ShopItem>, pending': seq<GameEvent>, out: Outcome)
    requires s < |vs| && t < |vs|
  {
    if TargetCoins(e) then
      out == Done && pending' == pending && discard' == discard && vs' == TargetedCoins(e, vs, s, t, value)
    else if e == ForceEnemyDrawBad then
      && vs' == vs && discard' == discard
      && (out == Done <==> chests > 0)
      && (out.Raised? ==> out.fault == EmptyDeck && pending' == pending)
      && (out == Done ==> |pending'| == |pending| + 1 && pending <= pending' && HandsEvent(pending'[|pending|], t, false))
    else if e.DiscardEnemyShopCard? || e.StealShopCardLeader? then
      out == Done && SeizeOutcome(e, s, t, vs, discard, pending, vs', discard', pending')
    else
      && out == (if e == GiveDoubleTurnEnemy then Raised(NotImplemented) else Done)
      && vs' == vs && pending' == pending && discard' == discard
  }

  /**
   * What a chest-card effect `e` of `s` that neither moves nor aims leaves
   * behind, from the seats `vs`, the number of chest cards left to draw and
   * the queue: the coin effects as CoinEffect, an error for the effects the
   * code does not implement, two bad events for `s` (or an empty-deck
   * error), the income of a last-placed player, and nothing for an effect
   * with no branch.
   */
  ghost predicate PlainOutcome(e: EffectId, s: nat, value: int, vs: seq<PlayerView>, chests: nat, pending: seq<GameEvent>,
                               vs': seq<PlayerView>, pending': seq<GameEvent>, out: Outcome)
    requires s < |vs|
  {
    if CoinsOnly(e) then
      out == Done && pending' == pending && vs' == CoinEffect(e, vs, s, value)
    else if Unimplemented(e) then
      out == Raised(NotImplemented) && pending' == pending && vs' == vs
    else if e == Draw2Bad then
      && vs' == vs
      && (out == Done <==> chests >= 2)
      && (out.Raised? ==> out.fault == EmptyDeck)
      && (out == Done ==>
            |pending'| == |pending| + 2 && HandsEvent(pending'[|pending|], s, false) && HandsEvent(pending'[|pending| + 1], s, false))
    else if e == RuleLastPlayerIncome then
      && out == Done && pending' == pending
      && vs' == if s in LastPlayers(vs) then vs[s := vs[s].(coins := AddedCoins(vs[s].coins, value))] else vs
    else
      out == Done && pending' == pending && vs' == vs
  }

  /** How deeply moves may nest (a move landing on a cell that moves again); stands for Python's recursion limit. */
  const MoveDepth: nat := 200

  /** Player `w` is player `v` after the start-of-turn income of `rules`, holding `v`'s hand and maybe more. */
  ghost predicate StartedFrom(v: PlayerView, w: PlayerView, rules: seq<HouseRule>)
  {
    w == v.(coins := LastIncome(v.coins, rules), hand := w.hand) && v.hand <= w.hand
  }

  /** The table `vs` once player `p` has been paid `gain` coins. */
  function Credited(vs: seq<PlayerView>, p: nat, gain: nat): seq<PlayerView>
    requires p < |vs|
  {
    vs[p := vs[p].(coins := vs[p].coins + gain)]
  }

  /**
   * `after` is `before` with the events one Ta-Dam rule adds for player `p`,
   * who landed on a cell of `kind` at table `vs`: a bad chest card on a red
   * cell (the red-bad rule), a good one on a green cell (the green-good
   * rule), the offer of a duel with the first other player on the cell (the
   * collision rule), and nothing for any other rule.
   */
  ghost predicate GlobalEvents(before: seq<GameEvent>, after: seq<GameEvent>, vs: seq<PlayerView>, p: nat,
                               rule: HouseRule, kind: CellType)
    requires p < |vs|
  {
    if kind == Red && rule.effect == RuleRedBad then
      before <= after && |after| == |before| + 1 && HandsEvent(after[|before|], p, false)
    else if kind == Green && rule.effect == RuleGreenGood then
      before <= after && |after| == |before| + 1 && HandsEvent(after[|before|], p, true)
    else if rule.effect == RuleCollisionDuel then
      var c := Collider(vs, p);
      after == before + (if c.Some? then [DuelChooseOpponent(p, [c.value])] else [])
    else
      after == before
  }

  /** One Ta-Dam rule took table `vs` and events `e` to `vs'` and `e'`, as GlobalTable and GlobalEvents say. */
  ghost predicate RuleActed(vs: seq<PlayerView>, e: seq<GameEvent>, vs': seq<PlayerView>, e': seq<GameEvent>, p: nat,
                            rule: HouseRule, kind: CellType)
    requires p < |vs|
  {
    vs' == GlobalTable(vs, p, rule, kind) && GlobalEvents(e, e', vs, p, rule, kind)
  }

  /**
   * The walk of the Ta-Dam rules `rules` on a landing, from table `vs`:
   * `marks[k]` holds the pending events once the first `k` rules have acted,
   * each adding what GlobalEvents says at the table the rules before it left.
   */
  ghost predicate GlobalWalk(vs: seq<PlayerView>, p: nat, rules: seq<HouseRule>, kind: CellType, marks: seq<seq<GameEvent>>)
    requires p < |vs|
  {
    && 0 < |marks| <= |rules| + 1
    && forall k :: 0 <= k < |marks| - 1 ==>
         GlobalEvents(marks[k], marks[k + 1], GlobalTables(vs, p, rules[..k], kind), p, rules[k], kind)
  }

  /** What a cell with no choice of its own does to the table once the rules have acted: the finish safe finishes player `p`. */
  function CellTable(vs: seq<PlayerView>, p: nat, kind: CellType): (r: seq<PlayerView>)
    requires p < |vs|
    ensures |r| == |vs|
  {
    if kind == FinishSafe then vs[p := vs[p].(isFinished := true)] else vs
  }

  /** The events a cell adds at a table of `n` once the rules have acted: a duel cell offers player `p` every other player. */
  function CellEvents(n: nat, p: nat, kind: CellType): seq<GameEvent>
  {
    if kind == Duel then [DuelChooseOpponent(p, Others(n, p))] else []
  }

  /** The pending events only grow: two extensions in a row are one. */
  lemma Extends(a: seq<GameEvent>, b: seq<GameEvent>, c: seq<GameEvent>)
    requires a <= b && b <= c
    ensures a <= c
  {
  }

  /** `after` extends `before` by `count` good chest cards for player `p`. */
  ghost predicate GoodDraws(p: nat, before: seq<GameEvent>, after: seq<GameEvent>, count: nat)
  {
    before <= after && |after| == |before| + count &&
    forall k :: |before| <= k < |after| ==> HandsEvent(after[k], p, true)
  }

  /** One more start-of-turn rule (see StartRule) keeps StartedFrom and GoodDraws. */
  lemma StartStep(p: nat, v: PlayerView, w: PlayerView, w': PlayerView, rules: seq<HouseRule>, i: nat,
                  e0: seq<GameEvent>, e1: seq<GameEvent>, e2: seq<GameEvent>)
    requires i < |rules|
    requires StartedFrom(v, w, rules[..i]) && GoodDraws(p, e0, e1, CountEffect(rules[..i], RuleLastDrawGood))
    requires w' == w.(coins := if rules[i].effect.RuleLastPlayerIncome? then AddedCoins(w.coins, rules[i].value) else w.coins,
                      hand := w'.hand)
    requires w.hand <= w'.hand
    requires GoodDraws(p, e1, e2, if rules[i].effect.RuleLastDrawGood? then 1 else 0)
    ensures StartedFrom(v, w', rules[..i + 1]) && GoodDraws(p, e0, e2, CountEffect(rules[..i + 1], RuleLastDrawGood))
  {
    LastIncomeStep(v.coins, rules, i);
    CountEffectStep(rules, i, RuleLastDrawGood);
    assert rules[i].effect.RuleLastPlayerIncome? == (rules[i].effect == RuleLastPlayerIncome);
    assert rules[i].effect.RuleLastDrawGood? == (rules[i].effect == RuleLastDrawGood);
  }

  /** Card effects whose result the table alone fixes: all but the rocket and an aimed voodoo. */
  predicate Settled(e: EffectId, t: Option<nat>)
  {
    !e.MoveRocket? && !(e.AttackVoodoo? && t.Some?)
  }

  /** A card the code refuses to play, with no error: a passive card, one used this turn, or one too dear. */
  predicate Refused(card: ShopItem, cardIdx: int, used: set<int>, coins: int)
  {
    card.isPassive || cardIdx in used || coins < card.useCost
  }

  class GameEngine {
    const board: Board
    const state: GameState
    /** The die stream: `dice(n)` is the n-th roll of the game. */
    const dice: nat -> int
    var rollsUsed: nat
    var isGameOver: bool
    var winner: Option<nat>
    /** cell id -> seat of the player who placed the mine */
    var placedMines: map<int, int>
    var pendingEvents: seq<GameEvent>

    ghost predicate Valid()
      reads board, state, state.shopDeck, state.eventDeck, state.tadamDeck
    {
      && state.Valid()
      && (forall id :: id in board.cells <==> 0 <= id < TrackLength) && board.maxCellId == FinishId
      && (forall n: nat :: 1 <= dice(n) <= 6)
    }

    constructor (playerCount: nat, dice: nat -> int)
      requires playerCount >= 1
      requires forall n: nat :: 1 <= dice(n) <= 6
      ensures Valid() && board.cells == Layout()
      ensures |state.players| == playerCount && forall i :: 0 <= i < playerCount ==> state.players[i].View() == NewPlayer
      ensures state.currentPlayerIdx == 0 && state.activeRules == []
      ensures !isGameOver && winner == None && placedMines == map[] && pendingEvents == []
      ensures this.dice == dice && rollsUsed == 0
    {
      board := new Board();
      LayoutShape();
      state := new GameState(playerCount);
      this.dice := dice;
      rollsUsed := 0;
      isGameOver := false;
      winner := None;
      placedMines := map[];
      pendingEvents := [];
    }

    /** The `count` rolls of the stream from position `start` on. */
    function DiceFrom(start: nat, count: nat): seq<int>
    {
      seq(count, k requires 0 <= k < count => dice(start + k))
    }

    /** The sum of the `count` rolls of the stream from position `start` on. */
    function DiceTotal(start: nat, count: nat): (t: nat)
      requires forall n: nat :: 1 <= dice(n) <= 6
      ensures count <= t <= 6 * count
    {
      if count == 0 then 0 else DiceTotal(start, count - 1) + dice(start + count - 1)
    }

    /** DiceTotal is the sum of the rolls DiceFrom lists. */
    lemma {:induction false} DiceTotalSums(start: nat, count: nat)
      requires forall n: nat :: 1 <= dice(n) <= 6
      ensures DiceTotal(start, count) == Sum(DiceFrom(start, count))
    {
      if count > 0 {
        DiceTotalSums(start, count - 1);
        assert DiceFrom(start, count)[..count - 1] == DiceFrom(start, count - 1);
      }
    }

    /** One roll of the die. */
    method RollDie() returns (r: int)
      requires Valid()
      modifies this`rollsUsed
      ensures Valid()
      ensures r == dice(old(rollsUsed)) && rollsUsed == old(rollsUsed) + 1
      ensures 1 <= r <= 6
    {
      r := dice(rollsUsed);
      rollsUsed := rollsUsed + 1;
    }

    /** Whether cell `pos` is the fortune cube (an id off the board is no cell at all). */
    predicate OnFortuneCube(pos: int)
      reads board
    {
      pos in board.cells && board.cells[pos].kind == FortuneCube
    }

    /** `count` rolls of the die. */
    method RollDice(count: nat) returns (rolls: seq<int>)
      requires Valid()
      modifies this`rollsUsed
      ensures Valid()
      ensures rolls == DiceFrom(old(rollsUsed), count) && rollsUsed == old(rollsUsed) + count
    {
      rolls := [];
      while |rolls| < count
        invariant |rolls| <= count && Valid()
        invariant rolls == DiceFrom(old(rollsUsed), |rolls|) && rollsUsed == old(rollsUsed) + |rolls|
      {
        var r := RollDie();
        rolls := rolls + [r];
      }
    }

    /** Whether some active Ta-Dam rule has effect `e`. */
    method RulesHave(e: EffectId) returns (b: bool)
      ensures b <==> AnyWithEffect(state.activeRules, e)
    {
      var rules := state.activeRules;
      var i := 0;
      while i < |rules|
        invariant 0 <= i <= |rules|
        invariant forall k :: 0 <= k < i ==> rules[k].effect != e
      {
        if rules[i].effect == e {
          return true;
        }
        i := i + 1;
      }
      return false;
    }

    /**
     * The dice of a turn: three on the fortune cube (nothing else applies);
     * otherwise one die, two from cell 24 on.  Also says whether the roll is
     * a double under "double move" and whether it holds a six under "six skip".
     */
    method RollFor(pos: int) returns (rolls: seq<int>, doubleMove: bool, sixSkip: bool)
      requires Valid()
      modifies this`rollsUsed
      ensures Valid()
      ensures var count := if OnFortuneCube(pos) then 3 else RollCount(pos);
              rolls == DiceFrom(old(rollsUsed), count) && rollsUsed == old(rollsUsed) + count
      ensures doubleMove <==>
                !OnFortuneCube(pos) && |rolls| == 2 && rolls[0] == rolls[1] &&
                AnyWithEffect(state.activeRules, RuleDoubleReroll)
      ensures sixSkip <==> !OnFortuneCube(pos) && 6 in rolls && AnyWithEffect(state.activeRules, RuleSixSkip)
    {
      if OnFortuneCube(pos) {
        rolls := RollDice(3);
        return rolls, false, false;
      }
      rolls := RollDice(if 24 <= pos <= 97 then 2 else 1);
      doubleMove, sixSkip := RollRules(rolls);
    }

    /** Whether `rolls` is a double under "double move", and whether it holds a six under "six skip". */
    method RollRules(rolls: seq<int>) returns (doubleMove: bool, sixSkip: bool)
      ensures doubleMove <==> |rolls| == 2 && rolls[0] == rolls[1] && AnyWithEffect(state.activeRules, RuleDoubleReroll)
      ensures sixSkip <==> 6 in rolls && AnyWithEffect(state.activeRules, RuleSixSkip)
    {
      doubleMove, sixSkip := false, false;
      if |rolls| == 2 && rolls[0] == rolls[1] {
        doubleMove := RulesHave(RuleDoubleReroll);
      }
      if 6 in rolls {
        sixSkip := RulesHave(RuleSixSkip);
      }
    }

    /**
     * Player `p`'s dice for the turn (see RollFor).  A double under "double
     * move" is not implemented; a six under "six skip" makes the player skip
     * their next turn.
     */
    method GetRoll(p: nat) returns (rolls: seq<int>, out: Outcome)
      requires Valid() && p < |state.players|
      modifies this`rollsUsed, state.players[p]
      ensures Valid()
      ensures var pos := old(state.players[p].position);
              var count := if OnFortuneCube(pos) then 3 else RollCount(pos);
              rolls == DiceFrom(old(rollsUsed), count) && rollsUsed == old(rollsUsed) + count
      ensures out.Raised? <==>
                !OnFortuneCube(old(state.players[p].position)) && |rolls| == 2 && rolls[0] == rolls[1] &&
                AnyWithEffect(state.activeRules, RuleDoubleReroll)
      ensures out.Raised? ==> out.fault == NotImplemented
      ensures var v := old(state.players[p].View());
              state.Views() == old(state.Views())[p := v.(skipNextTurn := v.skipNextTurn ||
                (out == Done && !OnFortuneCube(v.position) && 6 in rolls && AnyWithEffect(state.activeRules, RuleSixSkip)))]
    {
      var doubleMove, sixSkip;
      rolls, doubleMove, sixSkip := RollFor(state.players[p].position);
      if doubleMove {
        return rolls, Raised(NotImplemented);
      }
      if sixSkip {
        SetSkip(p);
      }
      out := Done;
    }

    /**
     * The moves open after a roll.  In a summing zone the dice are added (and
     * the magic cube offers the sum + 1 too); elsewhere each die is an option,
     * and with the cube each die + 1 as well, sorted and without repeats.
     */
    method GetMoveOptions(p: nat, rolls: seq<int>) returns (options: seq<int>)
      requires Valid() && p < |state.players|
      ensures var v := state.players[p].View();
              var cube := AnyWithEffect(v.hand, PassiveRollPlus1);
              if SummingZone(OnFortuneCube(v.position), v.position) then
                options == if cube then [Sum(rolls), Sum(rolls) + 1] else [Sum(rolls)]
              else
                Increasing(options) && forall x :: x in options <==> IsOption(rolls, cube, x)
    {
      var player := state.players[p];
      var pos := player.position;
      var cell := board.GetCell(pos);
      var hasCube := AnyWithEffect(player.hand, PassiveRollPlus1);
      if (cell.Some? && cell.value.kind == FortuneCube) || (68 <= pos <= 97) {
        var s := Sum(rolls);
        return if hasCube then [s, s + 1] else [s];
      }
      options := DistinctOptions(rolls, hasCube);
    }

    /** Each die (and, with the cube, each die + 1) once, in increasing order. */
    static method DistinctOptions(rolls: seq<int>, hasCube: bool) returns (options: seq<int>)
      ensures Increasing(options)
      ensures forall x :: x in options <==> IsOption(rolls, hasCube, x)
    {
      options := [];
      var k := 0;
      while k < |rolls|
        invariant 0 <= k <= |rolls|
        invariant options == Options(rolls[..k], hasCube)
      {
        assert rolls[..k + 1][..k] == rolls[..k];
        options := Insert(options, rolls[k]);
        if hasCube {
          options := Insert(options, rolls[k] + 1);
        }
        k := k + 1;
      }
      assert rolls[..k] == rolls;
      forall x {
        OptionsMembers(rolls, hasCube, x);
      }
    }

    /** Whether some other player stands 1 to 10 cells ahead of player `p`. */
    method AnyOpponentInReach(p: nat) returns (b: bool)
      requires Valid() && p < |state.players|
      ensures b <==> OpponentInReach(state.Views(), p)
    {
      var players := state.players;
      var j := 0;
      while j < |players|
        invariant 0 <= j <= |players|
        invariant forall k :: 0 <= k < j && k != p ==> !(0 < players[k].position - players[p].position <= 10)
      {
        if j != p && 0 < players[j].position - players[p].position <= 10 {
          return true;
        }
        j := j + 1;
      }
      return false;
    }

    /** Whether player `p` holds an active card they can still play and pay for this turn. */
    method CanPlayerDoActions(p: nat) returns (can: bool)
      requires Valid() && p < |state.players|
      ensures can <==> HasUsableCard(state.Views(), p)
    {
      var player := state.players[p];
      var hasOpponents := |state.players| > 1;
      ghost var vs := state.Views();
      var i := 0;
      while i < |player.hand|
        invariant 0 <= i <= |player.hand| == |vs[p].hand| && !UsableAmong(vs, p, i)
      {
        var usable := UsableNow(p, i, hasOpponents);
        if usable {
          UsableAmongAll(vs, p, |vs[p].hand|);
          assert UsableAmong(vs, p, i + 1);
          return true;
        }
        i := i + 1;
      }
      UsableAmongAll(vs, p, i);
      return false;
    }

    /** The test CanPlayerDoActions makes of card `i` of the hand of `p`. */
    method UsableNow(p: nat, i: nat, hasOpponents: bool) returns (usable: bool)
      requires Valid() && p < |state.players| && i < |state.players[p].hand|
      requires hasOpponents == (|state.players| > 1)
      ensures usable == UsableAt(state.Views(), p, i)
    {
      var player := state.players[p];
      var card := player.hand[i];
      usable := false;
      if !card.isPassive && i !in player.usedCardsIndices && player.CanAfford(card.useCost) {
        if card.effect == AttackHook || card.effect == MoveHarpoon {
          usable := AnyOpponentInReach(p);
        } else if card.effect == AttackGrenade || card.effect == AttackVoodoo || card.effect == AttackHandFate {
          usable := hasOpponents;
        } else {
          usable := true;
        }
      }
    }

    /** The seats of the players furthest from the finish. */
    function GetLastPlayers(): (last: seq<nat>)
      requires Valid()
      reads this, board, state, state.players, state.shopDeck, state.eventDeck, state.tadamDeck
      ensures |last| > 0
      ensures forall i: nat :: i in last <==>
                i < |state.players| && forall j :: 0 <= j < |state.players| ==>
                  state.players[i].position <= state.players[j].position
    {
      var vs := state.Views();
      LastIsMinimum(vs, 0);
      LastPlayers(vs)
    }

    /** Whether player `p` is last: nobody stands behind them (ties are all last). */
    function IsLast(p: nat): (last: bool)
      requires Valid() && p < |state.players|
      reads this, board, state, state.players, state.shopDeck, state.eventDeck, state.tadamDeck
      ensures last <==> forall j :: 0 <= j < |state.players| ==> state.players[p].position <= state.players[j].position
    {
      p in GetLastPlayers()
    }
    /**
     * Draws a chest card and hands it to player `p` as a good or a bad event;
     * with both piles empty the pop fails and nothing is queued.
     */
    method DrawEventFor(p: nat, isGood: bool) returns (drawn: Option<ChestCard>)
      requires Valid()
      modifies this`pendingEvents, state.eventDeck
      ensures Valid()
      ensures state.Views() == old(state.Views()) && state.activeRules == old(state.activeRules)
      ensures drawn.None? <==> |old(state.eventDeck.drawPile)| + |old(state.eventDeck.discardPile)| == 0
      ensures drawn.Some? ==> pendingEvents == old(pendingEvents) + [EventCardDrawn(p, drawn.value, isGood)]
      ensures drawn.Some? ==> state.eventDeck.handedOut == old(state.eventDeck.handedOut) + multiset{drawn.value}
      ensures drawn.None? ==> pendingEvents == old(pendingEvents)
      ensures drawn.Some? ==>
                |state.eventDeck.drawPile| + |state.eventDeck.discardPile|
                == |old(state.eventDeck.drawPile)| + |old(state.eventDeck.discardPile)| - 1
    {
      drawn := state.DrawEvent();
      if drawn.Some? {
        pendingEvents := pendingEvents + [EventCardDrawn(p, drawn.value, isGood)];
      }
    }

    /** One rule applied to an overtaken player and the mover (see StealStep). */
    static method StealStepOn(victim: Player, mover: Player, rule: HouseRule)
      requires victim != mover
      modifies victim`coins, mover`coins
      ensures var vm := StealStep(old(victim.coins), old(mover.coins), rule);
              victim.coins == vm.victim && mover.coins == vm.mover
    {
      if rule.effect == RuleOvertakeSteal {
        var amount := if victim.coins < rule.value then victim.coins else rule.value;
        var paid := victim.Pay(amount);
        if paid {
          mover.AddCoins(amount);
        }
      }
    }

    /** The overtaken player `j` pays the mover `p` under every overtake rule, in queue order. */
    method StealFromVictim(p: nat, j: nat)
      requires Valid() && p < |state.players| && j < |state.players| && p != j
      modifies state.players[p], state.players[j]
      ensures Valid()
      ensures var vm := StealRound(old(state.players[j].coins), old(state.players[p].coins), state.activeRules);
              state.players[j].View() == old(state.players[j].View()).(coins := vm.victim) &&
              state.players[p].View() == old(state.players[p].View()).(coins := vm.mover)
    {
      var victim: Player, mover: Player := state.players[j], state.players[p];
      var rules := state.activeRules;
      ghost var result := StealRound(victim.coins, mover.coins, rules);
      var i := 0;
      while i < |rules|
        invariant 0 <= i <= |rules|
        invariant StealRound(victim.coins, mover.coins, rules[i..]) == result
        modifies victim`coins, mover`coins
      {
        assert rules[i..][1..] == rules[i + 1..];
        StealStepOn(victim, mover, rules[i]);
        i := i + 1;
      }
    }

    /** Seat `j`, if the mover `p` passed it, is robbed (one step of OvertakeViews). */
    method StealIfOvertaken(p: nat, j: nat, start: int, target: int)
      requires Valid() && p < |state.players| && j < |state.players|
      modifies state.players[p], state.players[j]
      ensures Valid()
      ensures state.Views() == OvertakeStep(old(state.Views()), p, j, start, target, state.activeRules)
    {
      ghost var r := state.Views();
      if j != p && start < state.players[j].position <= target {
        StealFromVictim(p, j);
        forall k | 0 <= k < |state.players| && k != j && k != p
          ensures state.players[k] != state.players[j] && state.players[k] != state.players[p]
        {
          assert state.players[k].uid == k;
        }
        var vm := StealRound(r[j].coins, r[p].coins, state.activeRules);
        ViewsAre(r[j := r[j].(coins := vm.victim)][p := r[p].(coins := vm.mover)]);
      }
    }

    /** Everybody strictly past `start` and up to `target` (the mover aside) is robbed under the overtake rules. */
    method StealOnOvertake(p: nat, start: int, target: int)
      requires Valid() && p < |state.players|
      modifies state.players
      ensures Valid()
      ensures state.Views() == OvertakeViews(old(state.Views()), p, start, target, state.activeRules, |state.players|)
    {
      ghost var plan := OvertakePlan(state.Views(), p, start, target, state.activeRules);
      for j := 0 to |state.players|
        invariant Valid() && |plan| == |state.players| + 1
        invariant state.Views() == plan[j]
      {
        StealIfOvertaken(p, j, start, target);
      }
    }

    /** Puts player `p` on cell `pos` directly (no move: nothing is passed and nothing triggers). */
    method PlacePlayer(p: nat, pos: int)
      requires Valid() && p < |state.players|
      modifies state.players[p]
      ensures Valid()
      ensures state.Views() == WithPosition(old(state.Views()), p, pos)
    {
      state.players[p].position := pos;
      forall k | 0 <= k < |state.players| && k != p
        ensures state.players[k] != state.players[p]
      {
        assert state.players[k].uid == k;
      }
    }
    /** `from` pays the levy to `to` if they can afford it (see Transfer); paying oneself changes nothing. */
    method TransferCoins(from: nat, to: nat, levy: Levy, ghost r: seq<PlayerView>)
      requires Valid() && from < |state.players| && to < |state.players| && Shows(r)
      modifies state.players[from], state.players[to]
      ensures Valid()
      ensures Shows(Transfer(r, from, to, levy))
    {
      var amount := LevyAmount(levy, state.players[from].coins);
      var paid := Charge(from, amount);
      if paid {
        GiveCoins(to, amount);
      }
    }

    /** Seat `j` settles the levy with player `p` (see LevyStep). */
    method LevySeat(p: nat, j: nat, levy: Levy, toMover: bool)
      requires Valid() && p < |state.players| && j < |state.players|
      modifies state.players[p], state.players[j]
      ensures Valid()
      ensures state.Views() == LevyStep(old(state.Views()), p, j, levy, toMover)
    {
      ghost var r := state.Views();
      if j != p {
        if toMover {
          TransferCoins(j, p, levy, r);
        } else {
          TransferCoins(p, j, levy, r);
        }
        ViewsAre(LevyStep(r, p, j, levy, toMover));
      }
    }

    /** Every other player, in seating order, settles the levy with player `p`: paying them (`toMover`) or being paid. */
    method LevyRound(p: nat, levy: Levy, toMover: bool)
      requires Valid() && p < |state.players|
      modifies state.players
      ensures Valid()
      ensures state.Views() == Levies(old(state.Views()), p, levy, toMover, |state.players|)
    {
      ghost var plan := LevyPlan(state.Views(), p, levy, toMover);
      for j := 0 to |state.players|
        invariant Valid() && |plan| == |state.players| + 1
        invariant state.Views() == plan[j]
      {
        LevySeat(p, j, levy, toMover);
      }
    }

    // -----------------------------------------------------------------
    // Changes to one player
    // -----------------------------------------------------------------

    /** Seats hold distinct players. */
    lemma SeatsDistinct(p: nat)
      requires Valid() && p < |state.players|
      ensures forall k :: 0 <= k < |state.players| && k != p ==> state.players[k] != state.players[p]
    {
      forall k | 0 <= k < |state.players| && k != p
        ensures state.players[k] != state.players[p]
      {
        assert state.players[k].uid == k;
      }
    }

    /** When no seat but `p` changed since `old`, the table differs at seat `p` at most. */
    twostate lemma OnlySeatChanged(p: nat)
      requires p < |state.players|
      requires forall k :: 0 <= k < |state.players| && k != p ==> unchanged(state.players[k])
      ensures state.Views() == old(state.Views())[p := state.players[p].View()]
    {
      assert forall k :: 0 <= k < |state.players| && k != p ==> state.players[k].View() == old(state.players[k].View());
    }

    /** Player `p` ends a forward move on cell `pos`: they count as having moved this turn. */
    method Arrive(p: nat, pos: int)
      requires Valid() && p < |state.players|
      modifies state.players[p]
      ensures Valid()
      ensures state.Views() == old(state.Views())[p := old(state.players[p].View()).(position := pos, hasMoved := true)]
      ensures state.players[p].position == pos
    {
      SeatsDistinct(p);
      state.players[p].position := pos;
      state.players[p].hasMoved := true;
    }

    /** Player `p` will skip their next turn. */
    method SetSkip(p: nat)
      requires Valid() && p < |state.players|
      modifies state.players[p]
      ensures Valid()
      ensures state.Views() == old(state.Views())[p := old(state.players[p].View()).(skipNextTurn := true)]
    {
      SeatsDistinct(p);
      state.players[p].skipNextTurn := true;
    }

    /** Player `p` has reached the finish. */
    method SetFinished(p: nat)
      requires Valid() && p < |state.players|
      modifies state.players[p]
      ensures Valid()
      ensures state.Views() == old(state.Views())[p := old(state.players[p].View()).(isFinished := true)]
    {
      SeatsDistinct(p);
      state.players[p].isFinished := true;
    }

    /** Player `p` receives `amount` coins from the bank (a negative amount takes them, down to zero). */
    method GiveCoins(p: nat, amount: int)
      requires Valid() && p < |state.players|
      modifies state.players[p]
      ensures Valid()
      ensures state.Views() == WithCoins(old(state.Views()), p, AddedCoins(old(state.players[p].coins), amount))
    {
      SeatsDistinct(p);
      state.players[p].AddCoins(amount);
    }

    /** Player `p` pays `amount` to the bank if they can afford it. */
    method Charge(p: nat, amount: int) returns (paid: bool)
      requires Valid() && p < |state.players|
      modifies state.players[p]
      ensures Valid()
      ensures paid <==> old(state.players[p].coins) >= amount
      ensures state.Views() == WithCoins(old(state.Views()), p, PaidCoins(old(state.players[p].coins), amount))
    {
      SeatsDistinct(p);
      paid := state.players[p].Pay(amount);
    }

    // -----------------------------------------------------------------
    // Moving and landing
    // -----------------------------------------------------------------

    /**
     * Moves player `p` by `steps` cells, forwards or backwards, clamped to
     * the track.  Backwards the player is only put down (see MoveForward for
     * the forward case).  A move started by a landing is one level deeper
     * than the move that caused it.
     */
    method MovePlayer(p: nat, steps: int, isForward: bool, depth: nat) returns (out: Outcome)
      requires Valid() && p < |state.players|
      modifies this, state, state.players, state.shopDeck, state.eventDeck, state.tadamDeck
      decreases depth, 12
      ensures Valid() && old(pendingEvents) <= pendingEvents
      ensures !isForward ==>
                out == Done && unchanged(this, state, state.shopDeck, state.eventDeck, state.tadamDeck) &&
                state.Views() == WithPosition(old(state.Views()), p, board.ResolveMove(old(state.players[p].position), -steps))
    {
      if isForward {
        out := MoveForward(p, steps, depth);
      } else {
        MoveBack(p, steps);
        out := Done;
      }
    }

    /** Moves player `p` back by `steps` cells (never below the start): they are only put down. */
    method MoveBack(p: nat, steps: int)
      requires Valid() && p < |state.players|
      modifies state.players[p]
      ensures Valid()
      ensures state.Views() == WithPosition(old(state.Views()), p, board.ResolveMove(old(state.players[p].position), -steps))
    {
      PlacePlayer(p, board.ResolveMove(state.players[p].position, -steps));
    }

    /**
     * A forward move: everybody overtaken is robbed under the overtake rules
     * and the player counts as having moved; then either a portal carries
     * them off (with no landing) or they land.
     */
    method MoveForward(p: nat, steps: int, depth: nat) returns (out: Outcome)
      requires Valid() && p < |state.players|
      modifies this, state, state.players, state.shopDeck, state.eventDeck, state.tadamDeck
      decreases depth, 11
      ensures Valid() && old(pendingEvents) <= pendingEvents
      ensures var start := old(state.players[p].position);
              var target := board.ResolveMove(start, steps);
              var robbed := OvertakeViews(old(state.Views()), p, start, target, old(state.activeRules), |state.players|);
              var cell := board.cells[target];
              cell.kind == Portal && cell.portalTarget.Some? ==>
                && out == Done && pendingEvents == old(pendingEvents) && placedMines == old(placedMines)
                && state.Views() == robbed[p := robbed[p].(position := cell.portalTarget.value, hasMoved := true)]
    {
      var start := state.players[p].position;
      var target := board.ResolveMove(start, steps);
      StealOnOvertake(p, start, target);
      ghost var robbed := state.Views();
      assert robbed == OvertakeViews(old(state.Views()), p, start, target, old(state.activeRules), |state.players|);
      assert robbed[p] == state.players[p].View();
      var cell := board.cells[target];
      out := Arrival(p, target, depth);
      if cell.kind == Portal && cell.portalTarget.Some? {
        assert state.Views() == robbed[p := robbed[p].(position := cell.portalTarget.value, hasMoved := true)];
      }
    }

    /** Player `p` ends a forward move on cell `target`: a portal there carries them off with no landing; otherwise they land. */
    method Arrival(p: nat, target: int, depth: nat) returns (out: Outcome)
      requires Valid() && p < |state.players| && 0 <= target < TrackLength
      modifies this, state, state.players, state.shopDeck, state.eventDeck, state.tadamDeck
      decreases depth, 10
      ensures Valid() && old(pendingEvents) <= pendingEvents
      ensures var cell := board.cells[target];
              cell.kind == Portal && cell.portalTarget.Some? ==>
                && out == Done && pendingEvents == old(pendingEvents) && placedMines == old(placedMines)
                && state.Views() == old(state.Views())[p := old(state.players[p].View()).(
                     position := cell.portalTarget.value, hasMoved := true)]
    {
      var cell := board.cells[target];
      if cell.kind == Portal && cell.portalTarget.Some? {
        Arrive(p, cell.portalTarget.value);
        return Done;
      }
      Arrive(p, target);
      ghost var marks;
      out, marks := HandleLanding(p, depth);
    }

    /**
     * Player `p` lands on their cell.  A mine there goes off (even under its
     * owner): the player skips their next turn and nothing else happens.
     * Otherwise the passive cards, then the Ta-Dam rules, then the cell itself.
     */
    method HandleLanding(p: nat, depth: nat) returns (out: Outcome, ghost marks: seq<seq<GameEvent>>)
      requires Valid() && p < |state.players| && 0 <= state.players[p].position < TrackLength
      modifies this, state, state.players, state.shopDeck, state.eventDeck, state.tadamDeck
      decreases depth, 9
      ensures Valid() && old(pendingEvents) <= pendingEvents
      ensures var pos := old(state.players[p].position);
              pos in old(placedMines) ==>
                && out == Done && placedMines == old(placedMines) - {pos} && pendingEvents == old(pendingEvents)
                && unchanged(state, state.shopDeck, state.eventDeck, state.tadamDeck)
                && state.Views() == old(state.Views())[p := old(state.players[p].View()).(skipNextTurn := true)]
      ensures var pos := old(state.players[p].position);
              var kind := board.cells[pos].kind;
              var rules := old(state.activeRules);
              var landed := WithCoins(old(state.Views()), p,
                                      PassiveIncome(old(state.players[p].coins), old(state.players[p].hand), kind));
              pos !in old(placedMines) && kind in {Red, Green, Duel, FinishSafe} &&
              (kind != Green || CountEffect(rules, RuleGreenMove) == 0) && out == Done ==>
                && |marks| == |rules| + 1 && marks[0] == old(pendingEvents) && GlobalWalk(landed, p, rules, kind, marks)
                && state.Views() == CellTable(GlobalTables(landed, p, rules, kind), p, kind)
                && pendingEvents == marks[|rules|] + CellEvents(|landed|, p, kind)
    {
      var pos := state.players[p].position;
      var cell := board.cells[pos];
      marks := [pendingEvents];
      if pos in placedMines {
        placedMines := placedMines - {pos};
        SetSkip(p);
        return Done, marks;
      }
      out := CheckPassives(p, cell.kind, depth);
      if out.Raised? {
        return;
      }
      out, marks := RulesThenCell(p, cell, depth);
    }

    /**
     * After the passive cards: the Ta-Dam rules (see CheckGlobalRules), then,
     * unless a rule raised, the cell itself (see TriggerCellEffect).
     */
    method RulesThenCell(p: nat, cell: Cell, depth: nat) returns (out: Outcome, ghost marks: seq<seq<GameEvent>>)
      requires Valid() && p < |state.players|
      modifies this, state, state.players, state.shopDeck, state.eventDeck, state.tadamDeck
      decreases depth, 8
      ensures Valid() && old(pendingEvents) <= pendingEvents
      ensures var rules := old(state.activeRules);
              cell.kind in {Red, Green, Duel, FinishSafe} &&
              (cell.kind != Green || CountEffect(rules, RuleGreenMove) == 0) && out == Done ==>
                && |marks| == |rules| + 1 && marks[0] == old(pendingEvents)
                && GlobalWalk(old(state.Views()), p, rules, cell.kind, marks)
                && state.Views() == CellTable(GlobalTables(old(state.Views()), p, rules, cell.kind), p, cell.kind)
                && pendingEvents == marks[|rules|] + CellEvents(|state.players|, p, cell.kind)
    {
      out, marks := CheckGlobalRules(p, cell.kind, depth);
      if out.Raised? {
        return;
      }
      ghost var e := pendingEvents;
      out := TriggerCellEffect(p, cell, depth);
      Extends(old(pendingEvents), e, pendingEvents);
    }

    /**
     * The passive cards of player `p` after landing on a cell of `kind`.  Off
     * empty cells this is income only (see PassiveIncome); on an empty cell a
     * card may also move the player on.
     */
    method CheckPassives(p: nat, kind: CellType, depth: nat) returns (out: Outcome)
      requires Valid() && p < |state.players|
      modifies this, state, state.players, state.shopDeck, state.eventDeck, state.tadamDeck
      decreases depth, 7
      ensures Valid() && old(pendingEvents) <= pendingEvents
      ensures kind != Empty ==>
                && out == Done
                && unchanged(this, state, state.shopDeck, state.eventDeck, state.tadamDeck)
                && state.Views() == WithCoins(old(state.Views()), p,
                                              PassiveIncome(old(state.players[p].coins), old(state.players[p].hand), kind))
    {
      if kind == Empty {
        out := EmptyPassives(p, depth);
      } else {
        CollectPassiveIncome(p, kind);
        out := Done;
      }
    }

    /** The income the passive cards of player `p` pay on a cell of `kind`, card by card. */
    method CollectPassiveIncome(p: nat, kind: CellType)
      requires Valid() && p < |state.players|
      modifies state.players[p]
      ensures Valid()
      ensures state.Views() == WithCoins(old(state.Views()), p,
                                         PassiveIncome(old(state.players[p].coins), old(state.players[p].hand), kind))
    {
      SeatsDistinct(p);
      CollectIncome(state.players[p], kind);
    }

    /** The walk over a hand behind CollectPassiveIncome. */
    static method CollectIncome(player: Player, kind: CellType)
      modifies player`coins
      ensures player.coins == PassiveIncome(old(player.coins), player.hand, kind)
    {
      var i := 0;
      while i < |player.hand|
        invariant 0 <= i <= |player.hand|
        invariant player.coins == PassiveIncome(old(player.coins), player.hand[..i], kind)
      {
        var card := player.hand[i];
        assert player.hand[..i + 1][..i] == player.hand[..i];
        if card.isPassive && ((card.effect == PassiveRedIncome && kind == Red) ||
                              (card.effect == PassiveEmptyIncome && kind == Empty)) {
          player.AddCoins(card.value);
        }
        i := i + 1;
      }
      assert player.hand[..i] == player.hand;
    }

    /**
     * The passive cards of player `p` on an empty cell, walking the live hand
     * (a card the player gains meanwhile is walked too): income cards pay,
     * the moving card moves the player on.
     */
    method EmptyPassives(p: nat, depth: nat) returns (out: Outcome)
      requires Valid() && p < |state.players|
      modifies this, state, state.players, state.shopDeck, state.eventDeck, state.tadamDeck
      decreases depth, 6
      ensures Valid() && old(pendingEvents) <= pendingEvents
    {
      var player := state.players[p];
      var i := 0;
      while i < |player.hand|
        invariant 0 <= i <= MaxHandSize
        invariant Valid() && old(pendingEvents) <= pendingEvents
        decreases MaxHandSize - i
      {
        var card := player.hand[i];
        if card.isPassive {
          if card.effect == PassiveEmptyIncome {
            player.AddCoins(card.value);
          } else if card.effect == PassiveEmptyMove {
            if depth == 0 {
              return Raised(RecursionLimit);
            }
            out := MovePlayer(p, card.value, true, depth - 1);
            if out.Raised? {
              return;
            }
          }
        }
        i := i + 1;
      }
      out := Done;
    }

    /**
     * Applies every active Ta-Dam rule to player `p`, who landed on a cell of
     * `kind`, oldest rule first.  A change to the rule queue during the walk
     * stops it, as a mutated deque does.
     */
    method CheckGlobalRules(p: nat, kind: CellType, depth: nat) returns (out: Outcome, ghost marks: seq<seq<GameEvent>>)
      requires Valid() && p < |state.players|
      modifies this, state, state.players, state.shopDeck, state.eventDeck, state.tadamDeck
      decreases depth, 7
      ensures Valid() && old(pendingEvents) <= pendingEvents
      ensures out == Done ==> state.rulesVersion == old(state.rulesVersion)
      ensures var rules := old(state.activeRules);
              (kind != Green || CountEffect(rules, RuleGreenMove) == 0) && out == Done ==>
                && state.Views() == GlobalTables(old(state.Views()), p, rules, kind)
                && state.activeRules == rules
                && |marks| == |rules| + 1 && marks[0] == old(pendingEvents) && marks[|rules|] == pendingEvents
                && GlobalWalk(old(state.Views()), p, rules, kind, marks)
    {
      var rules := state.activeRules;
      var version := state.rulesVersion;
      ghost var vs, e0 := state.Views(), pendingEvents;
      ghost var plain := kind != Green || CountEffect(rules, RuleGreenMove) == 0;
      marks := [pendingEvents];
      var i := 0;
      out := Done;
      while i < |rules| && out == Done
        invariant 0 <= i <= |rules| && GlobalLoop(p, kind, rules, version, plain, vs, e0, marks, i, out)
      {
        out, marks := GlobalRuleAt(p, kind, rules, i, version, plain, vs, e0, marks, depth);
        i := i + 1;
      }
      if plain && out == Done {
        assert rules[..i] == rules;
      }
    }

    /**
     * The walk of CheckGlobalRules after `i` rules of `rules` with outcome
     * `out`: the game is sound, events were only added since `e0`, the queue
     * is still at `version` unless the walk has stopped, and, when no rule
     * of the queue moves the player (`plain`), the table, the queue and the
     * events are those of the first `i` rules (GlobalTables, GlobalWalk).
     */
    ghost predicate GlobalLoop(p: nat, kind: CellType, rules: seq<HouseRule>, version: nat, plain: bool,
                               vs: seq<PlayerView>, e0: seq<GameEvent>, marks: seq<seq<GameEvent>>, i: nat, out: Outcome)
      requires p < |vs| && i <= |rules|
      reads this, board, state, state.players, state.shopDeck, state.eventDeck, state.tadamDeck
    {
      && Valid() && e0 <= pendingEvents
      && (out == Done ==> state.rulesVersion == version)
      && |marks| == i + 1 && marks[0] == e0
      && (plain && out == Done ==>
            && marks[i] == pendingEvents && state.activeRules == rules
            && state.Views() == GlobalTables(vs, p, rules[..i], kind)
            && GlobalWalk(vs, p, rules, kind, marks))
    }

    /**
     * One rule of the walk of CheckGlobalRules, which raises when the rule
     * queue is no longer at `version`; GlobalLoop carries over one rule further.
     */
    method GlobalRuleAt(p: nat, kind: CellType, rules: seq<HouseRule>, i: nat, version: nat, ghost plain: bool,
                        ghost vs: seq<PlayerView>, ghost e0: seq<GameEvent>, ghost marks: seq<seq<GameEvent>>, depth: nat)
      returns (out: Outcome, ghost marks': seq<seq<GameEvent>>)
      requires p < |state.players| == |vs| && i < |rules|
      requires plain ==> kind != Green || CountEffect(rules, RuleGreenMove) == 0
      requires GlobalLoop(p, kind, rules, version, plain, vs, e0, marks, i, Done)
      modifies this, state, state.players, state.shopDeck, state.eventDeck, state.tadamDeck
      decreases depth, 6
      ensures GlobalLoop(p, kind, rules, version, plain, vs, e0, marks', i + 1, out)
    {
      if plain && kind == Green {
        NoneWithEffect(rules, i, RuleGreenMove);
      }
      ghost var u, e := state.Views(), pendingEvents;
      out := GlobalRule(p, rules[i], kind, depth);
      if out == Done && state.rulesVersion != version {
        out := Raised(DequeMutated);
      }
      marks' := marks + [pendingEvents];
      if plain && out == Done {
        GlobalWalkStep(vs, p, rules, i, kind, marks, u, state.Views(), pendingEvents);
      }
    }

    /** One more rule, acting as GlobalTable and GlobalEvents say, carries GlobalWalk and GlobalTables on. */
    static lemma GlobalWalkStep(vs: seq<PlayerView>, p: nat, rules: seq<HouseRule>, i: nat, kind: CellType,
                                marks: seq<seq<GameEvent>>, u: seq<PlayerView>, u': seq<PlayerView>, e': seq<GameEvent>)
      requires p < |vs| && i < |rules| && |marks| == i + 1
      requires GlobalWalk(vs, p, rules, kind, marks) && u == GlobalTables(vs, p, rules[..i], kind)
      requires u' == GlobalTable(u, p, rules[i], kind) && GlobalEvents(marks[i], e', u, p, rules[i], kind)
      ensures u' == GlobalTables(vs, p, rules[..i + 1], kind)
      ensures GlobalWalk(vs, p, rules, kind, marks + [e'])
    {
      GlobalTablesStep(vs, p, rules, i, kind);
      var m := marks + [e'];
      forall k | 0 <= k < |m| - 1
        ensures GlobalEvents(m[k], m[k + 1], GlobalTables(vs, p, rules[..k], kind), p, rules[k], kind)
      {
        if k < i {
          assert m[k] == marks[k] && m[k + 1] == marks[k + 1];
        }
      }
    }

    /** One Ta-Dam rule for player `p` on a cell of `kind`: the red rules, the green rules, then the collision duel. */
    method GlobalRule(p: nat, rule: HouseRule, kind: CellType, depth: nat) returns (out: Outcome)
      requires Valid() && p < |state.players|
      modifies this, state, state.players, state.shopDeck, state.eventDeck, state.tadamDeck
      decreases depth, 5
      ensures Valid() && old(pendingEvents) <= pendingEvents
      ensures kind != Red && kind != Green ==> out == Done
      ensures !(kind == Green && rule.effect == RuleGreenMove) && out == Done ==>
                && RuleActed(old(state.Views()), old(pendingEvents), state.Views(), pendingEvents, p, rule, kind)
                && state.activeRules == old(state.activeRules) && state.rulesVersion == old(state.rulesVersion)
    {
      ghost var vs, e0 := state.Views(), pendingEvents;
      out := CellKindRule(p, rule, kind, depth);
      if out.Raised? {
        return;
      }
      ghost var vs1, e1 := state.Views(), pendingEvents;
      DuelRule(p, rule);
      Extends(e0, e1, pendingEvents);
      if !(kind == Green && rule.effect == RuleGreenMove) {
        RuleThenDuel(vs, e0, vs1, e1, pendingEvents, p, rule, kind);
      }
    }

    /** The cell's part of a rule (CellKindRule) followed by the duel part (DuelRule) adds the events GlobalEvents says. */
    static lemma RuleThenDuel(vs: seq<PlayerView>, e0: seq<GameEvent>, vs1: seq<PlayerView>, e1: seq<GameEvent>,
                              e2: seq<GameEvent>, p: nat, rule: HouseRule, kind: CellType)
      requires p < |vs|
      requires vs1 == GlobalTable(vs, p, rule, kind)
      requires rule.effect == RuleCollisionDuel ==> e1 == e0
      requires rule.effect != RuleCollisionDuel ==> GlobalEvents(e0, e1, vs, p, rule, kind) && e2 == e1
      requires var c := Collider(vs1, p);
               rule.effect == RuleCollisionDuel ==> e2 == e1 + (if c.Some? then [DuelChooseOpponent(p, [c.value])] else [])
      ensures RuleActed(vs, e0, vs1, e2, p, rule, kind)
    {
    }

    /** The collision rule offers player `p` a duel (see CollisionDuel); no other rule does. */
    method DuelRule(p: nat, rule: HouseRule)
      requires Valid() && p < |state.players|
      modifies this`pendingEvents
      ensures Valid() && state.Views() == old(state.Views())
      ensures rule.effect != RuleCollisionDuel ==> pendingEvents == old(pendingEvents)
      ensures var c := Collider(state.Views(), p);
              rule.effect == RuleCollisionDuel ==>
                pendingEvents == old(pendingEvents) + (if c.Some? then [DuelChooseOpponent(p, [c.value])] else [])
    {
      if rule.effect == RuleCollisionDuel {
        CollisionDuel(p);
      }
    }

    /**
     * The part of a Ta-Dam rule that depends on the cell: the red rules on a
     * red cell, the green rules on a green cell, nothing elsewhere.  Unless
     * it moves the player, a rule that does not raise leaves the table as
     * GlobalTable says and adds the events GlobalEvents says, bar the duel.
     */
    method CellKindRule(p: nat, rule: HouseRule, kind: CellType, depth: nat) returns (out: Outcome)
      requires Valid() && p < |state.players|
      modifies this, state, state.players, state.shopDeck, state.eventDeck, state.tadamDeck
      decreases depth, 4
      ensures Valid() && old(pendingEvents) <= pendingEvents
      ensures kind != Red && kind != Green ==>
                out == Done && unchanged(this, state, state.players, state.shopDeck, state.eventDeck, state.tadamDeck)
      ensures rule.effect == RuleCollisionDuel ==> out == Done && pendingEvents == old(pendingEvents)
      ensures !(kind == Green && rule.effect == RuleGreenMove) && out == Done ==>
                && state.Views() == GlobalTable(old(state.Views()), p, rule, kind)
                && (rule.effect != RuleCollisionDuel ==> GlobalEvents(old(pendingEvents), pendingEvents, old(state.Views()), p, rule, kind))
                && unchanged(state)
    {
      out := Done;
      if kind == Red {
        out := RedRule(p, rule);
      } else if kind == Green {
        out := GreenRule(p, rule, depth);
      }
    }

    /**
     * A Ta-Dam rule on a red cell: a bad event card, a tax the player pays
     * to everybody else (4 coins each at a table of two, otherwise 2), or a
     * choice that is not implemented.
     */
    method RedRule(p: nat, rule: HouseRule) returns (out: Outcome)
      requires Valid() && p < |state.players|
      modifies this`pendingEvents, state.eventDeck, state.players
      ensures Valid() && old(pendingEvents) <= pendingEvents
      ensures rule.effect == RuleRedBad ==>
                && state.Views() == old(state.Views())
                && (out == Done <==> |old(state.eventDeck.drawPile)| + |old(state.eventDeck.discardPile)| > 0)
                && (out.Raised? ==> out.fault == EmptyDeck && pendingEvents == old(pendingEvents))
                && (out == Done ==> |pendingEvents| == |old(pendingEvents)| + 1 && HandsEvent(pendingEvents[|old(pendingEvents)|], p, false))
      ensures rule.effect == RuleRedTaxAll ==>
                && out == Done && pendingEvents == old(pendingEvents)
                && state.Views() == Levies(old(state.Views()), p, Fixed(if |state.players| == 2 then 4 else 2), false, |state.players|)
      ensures rule.effect == RuleRedChoice ==> out == Raised(NotImplemented) && unchanged(this, state.eventDeck) && state.Views() == old(state.Views())
      ensures rule.effect !in {RuleRedBad, RuleRedTaxAll, RuleRedChoice} ==>
                out == Done && unchanged(this, state.eventDeck) && state.Views() == old(state.Views())
      ensures out == Done ==>
                && state.Views() == GlobalTable(old(state.Views()), p, rule, Red)
                && (rule.effect != RuleCollisionDuel ==> GlobalEvents(old(pendingEvents), pendingEvents, old(state.Views()), p, rule, Red))
    {
      if rule.effect == RuleRedBad {
        var drawn := DrawEventFor(p, false);
        if drawn.None? {
          return Raised(EmptyDeck);
        }
      } else if rule.effect == RuleRedTaxAll {
        LevyRound(p, Fixed(if |state.players| == 2 then 4 else 2), false);
      } else if rule.effect == RuleRedChoice {
        return Raised(NotImplemented);
      }
      out := Done;
    }

    /**
     * A Ta-Dam rule on a green cell: a good event card, income, a move on,
     * or an extra turn that is not implemented.
     */
    method GreenRule(p: nat, rule: HouseRule, depth: nat) returns (out: Outcome)
      requires Valid() && p < |state.players|
      modifies this, state, state.players, state.shopDeck, state.eventDeck, state.tadamDeck
      decreases depth, 3
      ensures Valid() && old(pendingEvents) <= pendingEvents
      ensures rule.effect !in {RuleGreenGood, RuleGreenIncome, RuleGreenMove, RuleGreenExtraTurn} ==>
                out == Done && unchanged(this, state, state.players, state.shopDeck, state.eventDeck, state.tadamDeck)
      ensures rule.effect == RuleGreenGood ==>
                && unchanged(state, state.shopDeck, state.tadamDeck) && state.Views() == old(state.Views())
                && (out == Done <==> |old(state.eventDeck.drawPile)| + |old(state.eventDeck.discardPile)| > 0)
                && (out == Done ==> |pendingEvents| == |old(pendingEvents)| + 1 && HandsEvent(pendingEvents[|old(pendingEvents)|], p, true))
      ensures rule.effect == RuleGreenIncome ==>
                && out == Done && unchanged(this, state, state.shopDeck, state.eventDeck, state.tadamDeck)
                && state.Views() == WithCoins(old(state.Views()), p, AddedCoins(old(state.players[p].coins), rule.value))
      ensures rule.effect == RuleGreenExtraTurn ==> out == Raised(NotImplemented) && unchanged(this, state, state.players, state.shopDeck, state.eventDeck, state.tadamDeck)
      ensures rule.effect != RuleGreenMove && out == Done ==>
                && state.Views() == GlobalTable(old(state.Views()), p, rule, Green) && unchanged(state)
                && (rule.effect != RuleCollisionDuel ==> GlobalEvents(old(pendingEvents), pendingEvents, old(state.Views()), p, rule, Green))
    {
      if rule.effect == RuleGreenGood {
        var drawn := DrawEventFor(p, true);
        if drawn.None? {
          return Raised(EmptyDeck);
        }
      } else if rule.effect == RuleGreenIncome {
        GiveCoins(p, rule.value);
      } else if rule.effect == RuleGreenMove {
        if depth == 0 {
          return Raised(RecursionLimit);
        }
        out := MovePlayer(p, rule.value, true, depth - 1);
        return;
      } else if rule.effect == RuleGreenExtraTurn {
        return Raised(NotImplemented);
      }
      out := Done;
    }

    /** The collision duel: player `p` is offered a duel with the first other player on their cell, if any. */
    method CollisionDuel(p: nat)
      requires Valid() && p < |state.players|
      modifies this`pendingEvents
      ensures Valid() && state.Views() == old(state.Views())
      ensures var c := Collider(state.Views(), p);
              pendingEvents == old(pendingEvents) + (if c.Some? then [DuelChooseOpponent(p, [c.value])] else [])
    {
      ghost var vs := state.Views();
      var j := 0;
      while j < |state.players|
        invariant 0 <= j <= |state.players|
        invariant forall m :: 0 <= m < j && m != p ==> vs[m].position != vs[p].position
      {
        if j != p && state.players[j].position == state.players[p].position {
          pendingEvents := pendingEvents + [DuelChooseOpponent(p, [j])];
          return;
        }
        j := j + 1;
      }
    }

    // -----------------------------------------------------------------
    // Cell effects
    // -----------------------------------------------------------------

    /**
     * What the cell player `p` landed on does.  Red, green and empty cells do
     * nothing by themselves; the start cell and the fortune cube have no
     * branch and raise.
     */
    method TriggerCellEffect(p: nat, cell: Cell, depth: nat) returns (out: Outcome)
      requires Valid() && p < |state.players|
      modifies this, state, state.players, state.shopDeck, state.eventDeck, state.tadamDeck
      decreases depth, 7
      ensures Valid() && old(pendingEvents) <= pendingEvents
      ensures cell.kind in {Start, FortuneCube} ==> out == Raised(UnhandledCell(cell.kind)) && unchanged(this, state, state.players, state.shopDeck, state.eventDeck, state.tadamDeck)
      ensures cell.kind in {Red, Green, Empty} ==> out == Done && unchanged(this, state, state.players, state.shopDeck, state.eventDeck, state.tadamDeck)
      ensures cell.kind == Duel ==>
                && out == Done && unchanged(state, state.shopDeck, state.eventDeck, state.tadamDeck)
                && state.Views() == old(state.Views())
                && pendingEvents == old(pendingEvents) + [DuelChooseOpponent(p, Others(|state.players|, p))]
      ensures cell.kind == FinishSafe ==>
                && out == Done && unchanged(this, state, state.shopDeck, state.eventDeck, state.tadamDeck)
                && state.Views() == old(state.Views())[p := old(state.players[p].View()).(isFinished := true)]
      ensures cell.kind in {Red, Green, Duel, FinishSafe} ==>
                && out == Done && state.Views() == CellTable(old(state.Views()), p, cell.kind)
                && pendingEvents == old(pendingEvents) + CellEvents(|state.players|, p, cell.kind)
    {
      match cell.kind {
        case Duel =>
          pendingEvents := pendingEvents + [DuelChooseOpponent(p, Others(|state.players|, p))];
          out := Done;
        case FinishSafe =>
          SetFinished(p);
          out := Done;
        case Red =>
          out := Done;
        case Green =>
          out := Done;
        case Empty =>
          out := Done;
        case Start =>
          out := Raised(UnhandledCell(cell.kind));
        case FortuneCube =>
          out := Raised(UnhandledCell(cell.kind));
        case _ =>
          out := CellAction(p, cell, depth);
      }
    }

    /** The cells that act: shops, chests, Ta-Dam, portals, mines, tornadoes, bicycles, "oh no", the fortunate setup and tribute. */
    method CellAction(p: nat, cell: Cell, depth: nat) returns (out: Outcome)
      requires Valid() && p < |state.players|
      requires cell.kind !in {Duel, FinishSafe, Red, Green, Empty, Start, FortuneCube}
      modifies this, state, state.players, state.shopDeck, state.eventDeck, state.tadamDeck
      decreases depth, 6
      ensures Valid() && old(pendingEvents) <= pendingEvents
    {
      match cell.kind {
        case Shop =>
          var offered;
          out, offered := ShopVisit(p);
        case ChestGood =>
          var drawn := DrawEventFor(p, true);
          out := if drawn.Some? then Done else Raised(EmptyDeck);
        case ChestBad =>
          var drawn := DrawEventFor(p, false);
          out := if drawn.Some? then Done else Raised(EmptyDeck);
        case TaDam =>
          var shown := TadamVisit(p);
          out := if shown.Some? then Done else Raised(EmptyDeck);
        case Portal =>
          if cell.portalTarget.Some? {
            PlacePlayer(p, cell.portalTarget.value);
          }
          out := Done;
        case Mine =>
          MineEffect(p);
          out := Done;
        case Tornado =>
          TornadoEffect(p);
          out := Done;
        case Bicycle =>
          if depth == 0 {
            out := Raised(RecursionLimit);
          } else {
            out := MovePlayer(p, 10, true, depth - 1);
          }
        case OhNo =>
          var paid := Charge(p, 10);
          out := Done;
        case FortunateSetup =>
          ghost var card, rule;
          out, card, rule := FortunateSetup(p);
        case Tribute =>
          Tribute(p);
          out := Done;
      }
    }

    /** The shop: two cards are drawn and offered to player `p`; with fewer than two cards left the draw fails. */
    method ShopVisit(p: nat) returns (out: Outcome, offered: seq<ShopItem>)
      requires Valid()
      modifies this`pendingEvents, state.shopDeck
      ensures Valid()
      ensures out == Done <==> |old(state.shopDeck.drawPile)| + |old(state.shopDeck.discardPile)| >= 2
      ensures out.Raised? ==> out.fault == EmptyDeck && pendingEvents == old(pendingEvents)
      ensures out == Done ==> |offered| == 2 && pendingEvents == old(pendingEvents) + [ShopOffer(p, offered)]
      ensures state.shopDeck.handedOut == old(state.shopDeck.handedOut) + multiset(offered)
    {
      var ok;
      offered, ok := state.shopDeck.Draw(2);
      if !ok {
        return Raised(EmptyDeck), offered;
      }
      pendingEvents := pendingEvents + [ShopOffer(p, offered)];
      out := Done;
    }

    /** The Ta-Dam cell: a rule is drawn and shown to player `p`; `None` when the deck is exhausted. */
    method TadamVisit(p: nat) returns (shown: Option<HouseRule>)
      requires Valid()
      modifies this`pendingEvents, state.tadamDeck
      ensures Valid()
      ensures shown.None? <==> |old(state.tadamDeck.drawPile)| + |old(state.tadamDeck.discardPile)| == 0
      ensures shown.None? ==> pendingEvents == old(pendingEvents)
      ensures shown.Some? ==>
                && pendingEvents == old(pendingEvents) + [TadamShow(p, shown.value)]
                && state.tadamDeck.handedOut == old(state.tadamDeck.handedOut) + multiset{shown.value}
    {
      shown := state.tadamDeck.DrawOne();
      if shown.Some? {
        pendingEvents := pendingEvents + [TadamShow(p, shown.value)];
      }
    }

    /** The mine cell: a roll of 1 costs the next turn, a 6 wins the game, anything else pays 10 coins. */
    method MineEffect(p: nat)
      requires Valid() && p < |state.players|
      modifies this`rollsUsed, this`isGameOver, this`winner, state.players[p]
      ensures Valid() && rollsUsed == old(rollsUsed) + 1
      ensures (isGameOver, winner) == if dice(old(rollsUsed)) == 6 then (true, Some(p)) else (old(isGameOver), old(winner))
      ensures state.Views() == MineResult(old(state.Views()), p, dice(old(rollsUsed)))
    {
      var roll := RollDie();
      MineBlast(p, roll);
    }

    /** What the mine does to player `p` for a given roll. */
    method MineBlast(p: nat, roll: int)
      requires Valid() && p < |state.players|
      modifies this`isGameOver, this`winner, state.players[p]
      ensures Valid()
      ensures (isGameOver, winner) == if roll == 6 then (true, Some(p)) else (old(isGameOver), old(winner))
      ensures state.Views() == MineResult(old(state.Views()), p, roll)
    {
      if roll == 1 {
        SetSkip(p);
      } else if roll == 6 {
        isGameOver, winner := true, Some(p);
      } else {
        GiveCoins(p, 10);
      }
    }

    /** The tornado cell: every other player is asked whether to follow player `p` to their cell. */
    method TornadoEffect(p: nat)
      requires Valid() && p < |state.players|
      modifies this`pendingEvents
      ensures Valid()
      ensures pendingEvents == old(pendingEvents) + TornadoDecisions(Others(|state.players|, p), state.players[p].position)
    {
      var pos := state.players[p].position;
      ghost var plan := TornadoPlan(|state.players|, p, pos);
      for j := 0 to |state.players|
        invariant pendingEvents == old(pendingEvents) + plan[j]
      {
        if j != p {
          pendingEvents := pendingEvents + [TornadoDecision(j, pos)];
        }
      }
    }

    /**
     * The fortunate-setup cell: a good event card for player `p`, a free shop
     * card, a new Ta-Dam rule, and a bad event card for everybody else.  Any
     * exhausted deck stops the series.
     */
    method FortunateSetup(p: nat) returns (out: Outcome, ghost card: Option<ShopItem>, ghost rule: Option<HouseRule>)
      requires Valid() && p < |state.players|
      modifies this`pendingEvents, state`activeRules, state`rulesVersion
      modifies state.shopDeck, state.eventDeck, state.tadamDeck, state.players[p]
      ensures Valid() && old(pendingEvents) <= pendingEvents
      ensures out.Raised? ==> out.fault == EmptyDeck
      ensures out == Done ==>
                && |pendingEvents| == |old(pendingEvents)| + |state.players|
                && HandsEvent(pendingEvents[|old(pendingEvents)|], p, true)
                && (forall i :: 0 <= i < |state.players| - 1 ==>
                      HandsEvent(pendingEvents[|old(pendingEvents)| + 1 + i], Others(|state.players|, p)[i], false))
                && state.rulesVersion > old(state.rulesVersion)
      ensures out == Done ==>
                && card.Some? && rule.Some?
                && state.Views() == Handed(old(state.Views()), p, card.value)
                && state.activeRules == Enqueue(old(state.activeRules), rule.value)
    {
      out, card, rule := FortunateGifts(p);
      if out.Raised? {
        return;
      }
      ghost var pe1 := pendingEvents;
      out := BadEventsForOthers(p);
      assert pendingEvents[|old(pendingEvents)|] == pe1[|old(pendingEvents)|];
    }

    /**
     * The first half of the fortunate setup: player `p`'s good event card,
     * free shop card `card` (lost when the hand is full) and new Ta-Dam rule
     * `rule`.
     */
    method FortunateGifts(p: nat) returns (out: Outcome, card: Option<ShopItem>, rule: Option<HouseRule>)
      requires Valid() && p < |state.players|
      modifies this`pendingEvents, state`activeRules, state`rulesVersion
      modifies state.shopDeck, state.eventDeck, state.tadamDeck, state.players[p]
      ensures Valid() && old(pendingEvents) <= pendingEvents
      ensures out.Raised? ==> out.fault == EmptyDeck
      ensures out == Done ==>
                && |pendingEvents| == |old(pendingEvents)| + 1 && old(pendingEvents) <= pendingEvents
                && HandsEvent(pendingEvents[|old(pendingEvents)|], p, true)
                && state.rulesVersion > old(state.rulesVersion)
      ensures out == Done ==>
                && card.Some? && rule.Some?
                && state.Views() == Handed(old(state.Views()), p, card.value)
                && state.activeRules == Enqueue(old(state.activeRules), rule.value)
    {
      var drawn := DrawEventFor(p, true);
      if drawn.None? {
        return Raised(EmptyDeck), None, None;
      }
      card := FreeShopCard(p);
      if card.None? {
        return Raised(EmptyDeck), card, None;
      }
      rule := NewRule();
      if rule.None? {
        return Raised(EmptyDeck), card, rule;
      }
      out := Done;
    }

    /** A free shop card for player `p`, kept if their hand has room; `None` when the shop deck is exhausted. */
    method FreeShopCard(p: nat) returns (card: Option<ShopItem>)
      requires Valid() && p < |state.players|
      modifies state.shopDeck, state.players[p]
      ensures Valid()
      ensures card.None? <==> |old(state.shopDeck.drawPile)| + |old(state.shopDeck.discardPile)| == 0
      ensures card.Some? ==> state.shopDeck.handedOut == old(state.shopDeck.handedOut) + multiset{card.value}
      ensures card.None? ==> state.Views() == old(state.Views())
      ensures card.Some? ==> state.Views() == Handed(old(state.Views()), p, card.value)
    {
      card := state.DrawShop();
      if card.Some? {
        var kept := GiveCard(p, card.value);
      }
    }

    /** Player `p` takes `card` into their hand if it has room. */
    method GiveCard(p: nat, card: ShopItem) returns (kept: bool)
      requires Valid() && p < |state.players|
      modifies state.players[p]
      ensures Valid()
      ensures kept <==> |old(state.players[p].hand)| < MaxHandSize
      ensures state.players[p].hand == if kept then old(state.players[p].hand) + [card] else old(state.players[p].hand)
      ensures state.Views() == Handed(old(state.Views()), p, card)
    {
      SeatsDistinct(p);
      kept := state.players[p].AddCard(card);
    }

    /** A new Ta-Dam rule from the deck joins the queue; `None` when the deck is exhausted. */
    method NewRule() returns (rule: Option<HouseRule>)
      requires Valid()
      modifies state`activeRules, state`rulesVersion, state.tadamDeck
      ensures Valid()
      ensures state.Views() == old(state.Views())
      ensures rule.None? <==> |old(state.tadamDeck.drawPile)| + |old(state.tadamDeck.discardPile)| == 0
      ensures rule.None? ==> state.activeRules == old(state.activeRules) && state.rulesVersion == old(state.rulesVersion)
      ensures rule.Some? ==>
                && state.activeRules == Enqueue(old(state.activeRules), rule.value)
                && state.rulesVersion > old(state.rulesVersion)
                && state.tadamDeck.handedOut == old(state.tadamDeck.handedOut) + multiset{rule.value}
    {
      rule := state.DrawRule();
      if rule.Some? {
        state.AddRule(rule.value);
      }
    }

    /** Every player but `p`, in seating order, draws a bad event card. */
    method BadEventsForOthers(p: nat) returns (out: Outcome)
      requires Valid() && p < |state.players|
      modifies this`pendingEvents, state.eventDeck
      ensures Valid()
      ensures old(pendingEvents) <= pendingEvents
      ensures state.Views() == old(state.Views()) && state.activeRules == old(state.activeRules)
      ensures out.Raised? ==> out.fault == EmptyDeck
      ensures out == Done ==>
                && |pendingEvents| == |old(pendingEvents)| + |state.players| - 1
                && forall i :: 0 <= i < |state.players| - 1 ==>
                     HandsEvent(pendingEvents[|old(pendingEvents)| + i], Others(|state.players|, p)[i], false)
    {
      var j := 0;
      while j < |state.players|
        invariant 0 <= j <= |state.players| && Valid()
        invariant state.Views() == old(state.Views()) && state.activeRules == old(state.activeRules)
        invariant old(pendingEvents) <= pendingEvents
        invariant |pendingEvents| == |old(pendingEvents)| + |Others(j, p)|
        invariant forall i :: 0 <= i < |Others(j, p)| ==>
                    HandsEvent(pendingEvents[|old(pendingEvents)| + i], Others(j, p)[i], false)
      {
        if j != p {
          var drawn := DrawEventFor(j, false);
          if drawn.None? {
            return Raised(EmptyDeck);
          }
        }
        j := j + 1;
      }
      out := Done;
    }

    /** Seat `j` rolls and pays `min(coins, roll)` of tribute (see TributeStep). */
    method PayTribute(j: nat, total: int, ghost r: seq<PlayerView>) returns (total': int, ghost r': seq<PlayerView>)
      requires Valid() && j < |state.players| && Shows(r)
      modifies this`rollsUsed, state.players[j]
      ensures Valid() && rollsUsed == old(rollsUsed) + 1
      ensures (r', total') == TributeStep(r, total, j, dice(old(rollsUsed))) && Shows(r')
    {
      SeatsDistinct(j);
      var roll := RollDie();
      var payer := state.players[j];
      var payment := TributePayment(payer.coins, roll);
      var paid := payer.Pay(payment);
      assert paid && payer.View() == r[j].(coins := r[j].coins - payment);
      total' := total + if paid then payment else 0;
      r' := TributeStep(r, total, j, roll).0;
      forall k | 0 <= k < |state.players|
        ensures state.players[k].View() == r'[k]
      {
      }
    }

    /** Seat `j`'s turn in the tribute round of player `p` (see Tributes); the mover's own seat is skipped. */
    method TributeSeat(p: nat, j: nat, total: int, ghost vs: seq<PlayerView>, ghost base: nat, ghost rolls: seq<int>, ghost r: seq<PlayerView>)
      returns (total': int, ghost r': seq<PlayerView>)
      requires Valid() && p < |state.players| && j < |state.players| == |vs| == |r| && |rolls| + 1 >= |vs|
      requires (r, total) == Tributes(vs, p, rolls, j)
      requires rolls == DiceFrom(base, |vs| - 1) && rollsUsed == base + (if p < j then j - 1 else j)
      requires state.Views() == r
      modifies this`rollsUsed, state.players
      ensures Valid()
      ensures (r', total') == Tributes(vs, p, rolls, j + 1)
      ensures rollsUsed == old(rollsUsed) + (if j == p then 0 else 1)
      ensures state.Views() == r'
    {
      if j == p {
        return total, r;
      }
      ghost var k := RollIndex(j, p);
      assert rolls[k] == dice(rollsUsed);
      total', r' := PayTribute(j, total, r);
    }

    /**
     * The tribute cell: every other player, in seating order, rolls and pays
     * `min(coins, roll)`; player `p` then collects the total (see TributeResult).
     */
    method Tribute(p: nat)
      requires Valid() && p < |state.players|
      modifies this`rollsUsed, state.players
      ensures Valid()
      ensures rollsUsed == old(rollsUsed) + |state.players| - 1
      ensures state.Views() == TributeResult(old(state.Views()), p, DiceFrom(old(rollsUsed), |state.players| - 1))
    {
      var total := CollectTribute(p, DiceFrom(rollsUsed, |state.players| - 1));
      GiveCoins(p, total);
    }

    /** Every other seat, in seating order, pays its tribute; the collection is returned (see Tributes). */
    method CollectTribute(p: nat, ghost rolls: seq<int>) returns (total: int)
      requires Valid() && p < |state.players|
      requires rolls == DiceFrom(rollsUsed, |state.players| - 1)
      modifies this`rollsUsed, state.players
      ensures Valid()
      ensures rollsUsed == old(rollsUsed) + |state.players| - 1
      ensures (state.Views(), total) == Tributes(old(state.Views()), p, rolls, |state.players|)
    {
      ghost var vs := state.Views();
      ghost var base := rollsUsed;
      ghost var r := vs;
      assert |rolls| == |vs| - 1;
      total := 0;
      var j := 0;
      while j < |state.players|
        invariant 0 <= j <= |state.players| == |r|
        invariant rollsUsed == base + (if p < j then j - 1 else j)
        invariant (r, total) == Tributes(vs, p, rolls, j)
        invariant state.Views() == r
      {
        total, r := TributeSeat(p, j, total, vs, base, rolls, r);
        j := j + 1;
      }
    }

    // -----------------------------------------------------------------
    // Cards changing hands
    // -----------------------------------------------------------------

    /** Takes card `idx` out of player `p`'s hand; an index outside the hand takes nothing. */
    method RemoveHandCard(p: nat, idx: int) returns (card: Option<ShopItem>)
      requires Valid() && p < |state.players|
      modifies state.players[p]
      ensures Valid()
      ensures var h := old(state.players[p].hand);
              if 0 <= idx < |h|
              then card == Some(h[idx]) &&
                   state.Views() == old(state.Views())[p := old(state.players[p].View()).(hand := h[..idx] + h[idx + 1..])]
              else card == None && state.Views() == old(state.Views())
    {
      SeatsDistinct(p);
      card := state.players[p].RemoveCard(idx);
    }

    /** Player `to` takes card `idx` of player `from`; a card their full hand cannot hold goes to the shop's discard pile. */
    method TakeCardBetween(from: nat, to: nat, idx: int)
      requires Valid() && from < |state.players| && to < |state.players|
      modifies state.players[from], state.players[to], state.shopDeck
      ensures Valid() && state.shopDeck.drawPile == old(state.shopDeck.drawPile)
      ensures state.Views() == TakeCard(old(state.Views()), from, to, idx).0
      ensures var back := TakeCard(old(state.Views()), from, to, idx).1;
              state.shopDeck.discardPile == old(state.shopDeck.discardPile) + (if back.Some? then [back.value] else [])
    {
      var back := PassCard(from, to, idx);
      if back.Some? {
        state.DiscardShop(back.value);
      }
    }

    /** The hand-to-hand part of TakeCardBetween: the card that found no room is returned. */
    method PassCard(from: nat, to: nat, idx: int) returns (back: Option<ShopItem>)
      requires Valid() && from < |state.players| && to < |state.players|
      modifies state.players[from], state.players[to]
      ensures Valid()
      ensures (state.Views(), back) == TakeCard(old(state.Views()), from, to, idx)
    {
      ghost var vs := state.Views();
      var card := RemoveHandCard(from, idx);
      if card.None? {
        assert TakeCard(vs, from, to, idx) == (vs, None);
        return None;
      }
      ghost var h := vs[from].hand;
      ghost var r := vs[from := vs[from].(hand := h[..idx] + h[idx + 1..])];
      assert state.Views() == r && card.value == h[idx];
      var kept := GiveCard(to, card.value);
      if kept {
        ghost var r' := r[to := r[to].(hand := r[to].hand + [card.value])];
        assert state.Views() == r';
        assert TakeCard(vs, from, to, idx) == (r', None);
        back := None;
      } else {
        assert state.Views() == r;
        assert TakeCard(vs, from, to, idx) == (r, card);
        back := card;
      }
    }

    /** Every card of `cards`, in order, goes onto the shop's discard pile. */
    method DiscardShopCards(cards: seq<ShopItem>)
      requires Valid()
      modifies state.shopDeck
      ensures Valid()
      ensures state.shopDeck.discardPile == old(state.shopDeck.discardPile) + cards
      ensures state.shopDeck.drawPile == old(state.shopDeck.drawPile)
    {
      var i := 0;
      while i < |cards|
        invariant 0 <= i <= |cards| && Valid()
        invariant state.shopDeck.discardPile == old(state.shopDeck.discardPile) + cards[..i]
        invariant state.shopDeck.drawPile == old(state.shopDeck.drawPile)
      {
        state.DiscardShop(cards[i]);
        assert cards[..i + 1] == cards[..i] + [cards[i]];
        i := i + 1;
      }
      assert cards[..i] == cards;
    }

    // -----------------------------------------------------------------
    // Answers to the decisions handed to the players
    // -----------------------------------------------------------------

    /**
     * The shop decision: choice 0 or 1 buys that card (see ShopPurchase;
     * a card bought into a full hand is lost) and discards the other one; any larger choice discards both.  A choice that indexes outside
     * the offer raises.
     */
    method ResolveShopChoice(p: nat, cards: seq<ShopItem>, choice: int) returns (out: Outcome)
      requires Valid() && p < |state.players|
      modifies state.players[p], state.shopDeck
      ensures Valid() && state.shopDeck.drawPile == old(state.shopDeck.drawPile)
      ensures choice >= 2 ==>
                && out == Done && state.Views() == old(state.Views())
                && state.shopDeck.discardPile == old(state.shopDeck.discardPile) + cards
      ensures choice < 2 && PyIndex(choice, |cards|).None? ==>
                && out == Raised(IndexOutOfRange) && state.Views() == old(state.Views())
                && state.shopDeck.discardPile == old(state.shopDeck.discardPile)
      ensures choice < 2 && PyIndex(choice, |cards|).Some? ==>
                var other := PyIndex(1 - choice, |cards|);
                && state.Views() == old(state.Views())[p := ShopPurchase(old(state.players[p].View()),
                                                                         cards[PyIndex(choice, |cards|).value])]
                && (other.None? ==>
                      out == Raised(IndexOutOfRange) && state.shopDeck.discardPile == old(state.shopDeck.discardPile))
                && (other.Some? ==>
                      out == Done && state.shopDeck.discardPile == old(state.shopDeck.discardPile) + [cards[other.value]])
    {
      if choice >= 2 {
        DiscardShopCards(cards);
        return Done;
      }
      var i := PyIndex(choice, |cards|);
      if i.None? {
        return Raised(IndexOutOfRange);
      }
      BuyCard(p, cards[i.value]);
      out := DiscardOther(cards, choice);
    }

    /** The card not chosen (index `1 - choice`) goes onto the shop's discard pile; an index outside the offer raises. */
    method DiscardOther(cards: seq<ShopItem>, choice: int) returns (out: Outcome)
      requires Valid()
      modifies state.shopDeck
      ensures Valid() && state.shopDeck.drawPile == old(state.shopDeck.drawPile)
      ensures var other := PyIndex(1 - choice, |cards|);
              && (other.None? ==>
                    out == Raised(IndexOutOfRange) && state.shopDeck.discardPile == old(state.shopDeck.discardPile))
              && (other.Some? ==>
                    out == Done && state.shopDeck.discardPile == old(state.shopDeck.discardPile) + [cards[other.value]])
    {
      var j := PyIndex(1 - choice, |cards|);
      if j.None? {
        return Raised(IndexOutOfRange);
      }
      state.DiscardShop(cards[j.value]);
      out := Done;
    }

    /** Player `p` pays 5 coins for `card` and takes it if their hand has room (see ShopPurchase). */
    method BuyCard(p: nat, card: ShopItem)
      requires Valid() && p < |state.players|
      modifies state.players[p]
      ensures Valid()
      ensures state.Views() == old(state.Views())[p := ShopPurchase(old(state.players[p].View()), card)]
    {
      SeatsDistinct(p);
      var player := state.players[p];
      var paid := player.Pay(5);
      if paid {
        var kept := player.AddCard(card);
      }
      OnlySeatChanged(p);
    }

    /**
     * The duel between attacker `a` and defender `d`: two rolls (see
     * DuelRoll); the winner, if any, is asked to choose a reward from the loser.
     */
    method ResolveDuelOpponent(a: nat, d: nat)
      requires Valid()
      modifies this`rollsUsed, this`pendingEvents
      ensures Valid() && rollsUsed == old(rollsUsed) + 2
      ensures var r := DuelRoll(a, d, dice(old(rollsUsed)), dice(old(rollsUsed) + 1));
              pendingEvents == old(pendingEvents) +
                (if r.winner.Some?
                 then [DuelChooseReward(r.winner.value, if r.winner.value == a then d else a, r.atkRoll, r.defRoll)]
                 else [])
    {
      var atkDie := RollDie();
      var defDie := RollDie();
      var r := DuelRoll(a, d, atkDie, defDie);
      if r.winner.Some? {
        var w := r.winner.value;
        pendingEvents := pendingEvents + [DuelChooseReward(w, if w == a then d else a, r.atkRoll, r.defRoll)];
      }
    }

    /**
     * The reward the duel winner `w` chose from the loser `l`: up to 10 of
     * their coins, pushing them 10 cells back, or their card `cardIdx`
     * (see TakeCard).  Any other choice does nothing.
     */
    method ApplyDuelReward(w: nat, l: nat, reward: Reward, cardIdx: int)
      requires Valid() && w < |state.players| && l < |state.players|
      modifies state.players[w], state.players[l], state.shopDeck
      ensures Valid() && state.shopDeck.drawPile == old(state.shopDeck.drawPile)
      ensures reward != StealCard ==> state.shopDeck.discardPile == old(state.shopDeck.discardPile)
      ensures reward == Money ==> state.Views() == Transfer(old(state.Views()), l, w, UpTo(10))
      ensures reward == Push ==>
                state.Views() == WithPosition(old(state.Views()), l, board.ResolveMove(old(state.players[l].position), -10))
      ensures reward == StealCard ==>
                var (r, back) := TakeCard(old(state.Views()), l, w, cardIdx);
                && state.Views() == r
                && state.shopDeck.discardPile == old(state.shopDeck.discardPile) + (if back.Some? then [back.value] else [])
      ensures reward == NoReward ==> state.Views() == old(state.Views())
    {
      match reward
      case Money =>
        TransferCoins(l, w, UpTo(10), state.Views());
      case Push =>
        MoveBack(l, 10);
      case StealCard =>
        TakeCardBetween(l, w, cardIdx);
      case NoReward =>
    }

    /** The tornado decision of player `v` (see TornadoAnswer). */
    method ResolveTornadoChoice(v: nat, choice: int, target: int)
      requires Valid() && v < |state.players|
      modifies state.players[v]
      ensures Valid()
      ensures state.Views() == old(state.Views())[v := TornadoAnswer(old(state.players[v].View()), choice, target)]
    {
      SeatsDistinct(v);
      var victim := state.players[v];
      if choice == 0 {
        var paid := victim.Pay(10);
        if !paid {
          victim.position := target;
        }
      } else {
        victim.position := target;
      }
      OnlySeatChanged(v);
    }

    /** The rule shown on a Ta-Dam cell joins the queue once the player has seen it. */
    method ResolveTadamChoice(rule: HouseRule)
      requires Valid()
      modifies state`activeRules, state`rulesVersion
      ensures Valid()
      ensures state.activeRules == Enqueue(old(state.activeRules), rule)
      ensures state.rulesVersion > old(state.rulesVersion)
    {
      state.AddRule(rule);
    }

    /** Player `p` discards card `idx` of player `t`; the card leaves the game (no pile receives it). */
    method ResolveDiscardEnemyCard(p: nat, t: nat, idx: int) returns (out: Outcome)
      requires Valid() && t < |state.players|
      modifies state.players[t]
      ensures Valid()
      ensures var h := old(state.players[t].hand);
              0 <= idx < |h| ==>
                && out == Done
                && state.Views() == old(state.Views())[t := old(state.players[t].View()).(hand := h[..idx] + h[idx + 1..])]
                && AllHands(state.Views()) + multiset{h[idx]} == AllHands(old(state.Views()))
      ensures var h := old(state.players[t].hand);
              !(0 <= idx < |h|) ==> out == Raised(MissingCard) && state.Views() == old(state.Views())
    {
      ghost var vs := state.Views();
      var card := RemoveHandCard(t, idx);
      if card.None? {
        return Raised(MissingCard);
      }
      RemovedCard(vs, t, idx);
      out := Done;
    }

    /** At the finish-safe cell player `p` rolls for the safe: a roll of at least WinningRoll wins the game. */
    method AttemptFinish(p: nat)
      requires Valid() && p < |state.players|
      modifies this`rollsUsed, this`isGameOver, this`winner
      ensures Valid()
      ensures !state.players[p].isFinished ==>
                rollsUsed == old(rollsUsed) && isGameOver == old(isGameOver) && winner == old(winner)
      ensures state.players[p].isFinished ==>
                && rollsUsed == old(rollsUsed) + 1
                && (isGameOver, winner) ==
                     if dice(old(rollsUsed)) >= WinningRoll then (true, Some(p)) else (old(isGameOver), old(winner))
    {
      if !state.players[p].isFinished {
        return;
      }
      var roll := RollDie();
      if roll >= WinningRoll {
        isGameOver := true;
        winner := Some(p);
      }
    }

    // -----------------------------------------------------------------
    // Chest-card effects
    // -----------------------------------------------------------------

    /** The chest-card side `e` with its `value`, for player `s` (see CoinEffect). */
    method ApplyCoinEffect(e: EffectId, s: nat, value: int)
      requires Valid() && s < |state.players| && CoinsOnly(e)
      modifies state.players
      ensures Valid()
      ensures state.Views() == CoinEffect(e, old(state.Views()), s, value)
    {
      if e.GainCoins? {
        GiveCoins(s, value);
      } else if e.LoseCoins? {
        var paid := Charge(s, value);
      } else if e.PayAllOthersBank? {
        BankPayRound(s, value);
      } else if e.StealCoinsFromAll? {
        LevyRound(s, Fixed(value), true);
      } else if e.AllLoseCoinsGlobal? {
        AllPayRound(value);
      } else if e.Steal2FromAll? {
        LevyRound(s, UpTo(value), true);
      }
    }

    /** The bank pays `amount` to every player but `s`, in seating order. */
    method BankPayRound(s: nat, amount: int)
      requires Valid() && s < |state.players|
      modifies state.players
      ensures Valid()
      ensures state.Views() == BankPaysOthers(old(state.Views()), s, amount)
    {
      ghost var vs := state.Views();
      var j := 0;
      while j < |state.players|
        invariant 0 <= j <= |state.players| && Valid()
        invariant forall k :: 0 <= k < |state.players| ==>
                    state.players[k].View() ==
                      if k < j && k != s then vs[k].(coins := AddedCoins(vs[k].coins, amount)) else vs[k]
      {
        if j != s {
          GiveCoins(j, amount);
        }
        j := j + 1;
      }
    }

    /** Every player, in seating order, pays `amount` to the bank if they can afford it. */
    method AllPayRound(amount: int)
      requires Valid()
      modifies state.players
      ensures Valid()
      ensures state.Views() == AllPay(old(state.Views()), amount)
    {
      ghost var plan := AllPayPlan(state.Views(), amount);
      for j := 0 to |state.players|
        invariant Valid() && |plan| == |state.players| + 1
        invariant state.Views() == plan[j]
      {
        var paid := Charge(j, amount);
      }
    }

    /**
     * The steps to the nearest green cell strictly ahead of `pos` and before
     * the finish (see FirstOfKind), or 3 when there is none.  A search that
     * starts off the board raises.
     */
    method NearestGreenSteps(pos: int) returns (steps: int, out: Outcome)
      requires Valid()
      ensures pos + 1 < 0 ==> out == Raised(NoSuchCell)
      ensures pos + 1 >= 0 ==>
                var g := FirstOfKind(board.CellKinds(), Green, pos + 1, FinishId);
                out == Done && steps == if g.Some? then g.value - pos else 3
    {
      ghost var kinds := board.CellKinds();
      var i := pos + 1;
      while i < board.maxCellId
        invariant pos + 1 <= i && (pos + 1 < 0 ==> i == pos + 1)
        invariant forall k :: pos + 1 <= k < i ==> 0 <= k < TrackLength && kinds[k] != Green
      {
        var cell := board.GetCell(i);
        if cell.None? {
          return 0, Raised(NoSuchCell);
        }
        assert kinds[i] == cell.value.kind;
        if cell.value.kind == Green {
          return i - pos, Done;
        }
        i := i + 1;
      }
      return 3, Done;
    }

    /** The nearest red cell behind `pos` (see LastOfKind); a search that starts off the board raises. */
    method RedBehind(pos: int) returns (red: Option<nat>, out: Outcome)
      requires Valid()
      ensures pos > TrackLength ==> out == Raised(NoSuchCell)
      ensures pos <= TrackLength ==> out == Done && red == LastOfKind(board.CellKinds(), Red, pos)
    {
      ghost var kinds := board.CellKinds();
      var i := pos - 1;
      while i >= 0
        invariant i <= pos - 1 && (pos > TrackLength ==> i == pos - 1)
        invariant forall k :: i < k < pos ==> 0 <= k < TrackLength && kinds[k] != Red
        decreases i
      {
        var cell := board.GetCell(i);
        if cell.None? {
          return None, Raised(NoSuchCell);
        }
        assert kinds[i] == cell.value.kind;
        if cell.value.kind == Red {
          return Some(i), Done;
        }
        i := i - 1;
      }
      return None, Done;
    }

    /** Player `s` is put on the nearest red cell behind them, or moves 3 cells back when there is none. */
    method RetreatToRed(s: nat) returns (out: Outcome)
      requires Valid() && s < |state.players|
      modifies state.players[s]
      ensures Valid()
      ensures var pos := old(state.players[s].position);
              pos > TrackLength ==> out == Raised(NoSuchCell) && state.Views() == old(state.Views())
      ensures var pos := old(state.players[s].position);
              pos <= TrackLength ==>
                var red := LastOfKind(board.CellKinds(), Red, pos);
                && out == Done
                && state.Views() == WithPosition(old(state.Views()), s, if red.Some? then red.value else board.ResolveMove(pos, -3))
    {
      var red;
      red, out := RedBehind(state.players[s].position);
      if out.Raised? {
        return;
      }
      if red.Some? {
        PlacePlayer(s, red.value);
      } else {
        MoveBack(s, 3);
      }
    }

    /** Player `s` draws two bad event cards; an exhausted deck stops the draw. */
    method DrawTwoBad(s: nat) returns (out: Outcome)
      requires Valid()
      modifies this`pendingEvents, state.eventDeck
      ensures Valid() && old(pendingEvents) <= pendingEvents
      ensures out == Done <==> |old(state.eventDeck.drawPile)| + |old(state.eventDeck.discardPile)| >= 2
      ensures out.Raised? ==> out.fault == EmptyDeck
      ensures out == Done ==>
                && |pendingEvents| == |old(pendingEvents)| + 2
                && HandsEvent(pendingEvents[|old(pendingEvents)|], s, false)
                && HandsEvent(pendingEvents[|old(pendingEvents)| + 1], s, false)
    {
      var first := DrawEventFor(s, false);
      if first.None? {
        return Raised(EmptyDeck);
      }
      var second := DrawEventFor(s, false);
      if second.None? {
        return Raised(EmptyDeck);
      }
      out := Done;
    }

    /** Every player but `s`, in seating order, gains `value` coins first (`gain`) and moves `value` cells forward. */
    method OthersForward(s: nat, value: int, gain: bool) returns (out: Outcome)
      requires Valid() && s < |state.players|
      modifies this, state, state.players, state.shopDeck, state.eventDeck, state.tadamDeck
      ensures Valid() && old(pendingEvents) <= pendingEvents
    {
      var j := 0;
      while j < |state.players|
        invariant 0 <= j <= |state.players| && Valid() && old(pendingEvents) <= pendingEvents
      {
        if j != s {
          if gain {
            GiveCoins(j, value);
          }
          out := MovePlayer(j, value, true, MoveDepth);
          if out.Raised? {
            return;
          }
        }
        j := j + 1;
      }
      out := Done;
    }

    /**
     * The chest-card sides that move players: forwards (with the landing
     * that follows), backwards, to the nearest green cell ahead, back to
     * the nearest red cell, and the two dice gambles.
     */
    method MoveEffect(e: EffectId, s: nat, value: int) returns (out: Outcome)
      requires Valid() && s < |state.players| && Moving(e)
      modifies this, state, state.players, state.shopDeck, state.eventDeck, state.tadamDeck
      ensures Valid() && old(pendingEvents) <= pendingEvents
      ensures Retreating(e) ==>
                && unchanged(state, state.shopDeck, state.eventDeck, state.tadamDeck)
                && pendingEvents == old(pendingEvents)
                && RetreatOutcome(e, old(state.Views()), s, value, old(rollsUsed), state.Views(), out, rollsUsed)
      ensures e == RollGambleMoneyMove && dice(old(rollsUsed)) <= 3 ==>
                && out == Done && rollsUsed == old(rollsUsed) + 1 && pendingEvents == old(pendingEvents)
                && unchanged(state, state.shopDeck, state.eventDeck, state.tadamDeck)
                && state.Views() == WithCoins(old(state.Views()), s, AddedCoins(old(state.players[s].coins), 10))
    {
      if Retreating(e) {
        out := RetreatEffect(e, s, value);
      } else if e == RollGambleMoneyMove {
        out := Gamble(s);
      } else {
        out := AdvanceEffect(e, s, value);
      }
    }

    /**
     * What a backward chest-card side leaves behind: the new seats `r`, the
     * outcome and the number of dice rolled so far (see MoveEffect).
     */
    ghost predicate RetreatOutcome(e: EffectId, vs: seq<PlayerView>, s: nat, value: int, rolls: nat,
                                   r: seq<PlayerView>, out: Outcome, rolls': nat)
      reads this, board
      requires s < |vs|
    {
      var w := vs[s];
      if e.MoveSelfBack? then
        out == Done && rolls' == rolls && r == vs[s := w.(position := board.ResolveMove(w.position, -value))]
      else if e.RollLoseCoinsOrMoveBack? then
        && out == Done && rolls' == rolls + 1
        && r == vs[s := if dice(rolls) <= 3 then w.(coins := PaidCoins(w.coins, 5))
                        else w.(position := board.ResolveMove(w.position, -10))]
      else
        && rolls' == rolls
        && if e.DiscardShopOrRed? && |w.hand| > 0 then out == Raised(NotImplemented) && r == vs
           else if w.position > TrackLength then out == Raised(NoSuchCell) && r == vs
           else
             var red := LastOfKind(board.CellKinds(), Red, w.position);
             out == Done && r == vs[s := w.(position := if red.Some? then red.value else board.ResolveMove(w.position, -3))]
    }

    /** The backward chest-card sides, which move only player `s` and roll at most one die. */
    method RetreatEffect(e: EffectId, s: nat, value: int) returns (out: Outcome)
      requires Valid() && s < |state.players| && Retreating(e)
      modifies this`rollsUsed, state.players[s]
      ensures Valid()
      ensures RetreatOutcome(e, old(state.Views()), s, value, old(rollsUsed), state.Views(), out, rollsUsed)
    {
      if e == MoveSelfBack {
        MoveBack(s, value);
        out := Done;
      } else if e == RollLoseCoinsOrMoveBack {
        out := RollLoseOrBack(s);
      } else if e == DiscardShopOrRed && |state.players[s].hand| > 0 {
        out := Raised(NotImplemented);
      } else {
        out := RetreatToRed(s);
      }
    }

    /** A roll of at most 3 gives player `s` 10 coins; a higher roll moves them 5 cells forward. */
    method Gamble(s: nat) returns (out: Outcome)
      requires Valid() && s < |state.players|
      modifies this, state, state.players, state.shopDeck, state.eventDeck, state.tadamDeck
      ensures Valid() && old(pendingEvents) <= pendingEvents
      ensures dice(old(rollsUsed)) <= 3 ==>
                && out == Done && rollsUsed == old(rollsUsed) + 1 && pendingEvents == old(pendingEvents)
                && unchanged(state, state.shopDeck, state.eventDeck, state.tadamDeck)
                && state.Views() == WithCoins(old(state.Views()), s, AddedCoins(old(state.players[s].coins), 10))
    {
      var roll := RollDie();
      if roll <= 3 {
        GiveCoins(s, 10);
        out := Done;
      } else {
        out := MovePlayer(s, 5, true, MoveDepth);
      }
    }

    /** The forward chest-card sides: each move ends with the landing on the cell reached. */
    method AdvanceEffect(e: EffectId, s: nat, value: int) returns (out: Outcome)
      requires Valid() && s < |state.players|
      modifies this, state, state.players, state.shopDeck, state.eventDeck, state.tadamDeck
      ensures Valid() && old(pendingEvents) <= pendingEvents
    {
      if e == MoveSelfForward {
        out := MovePlayer(s, value, true, MoveDepth);
      } else if e == MoveForwardGainCoins {
        out := MovePlayer(s, value, true, MoveDepth);
        if out == Done {
          GiveCoins(s, value);
        }
      } else if e == MoveNearestGreen {
        var steps;
        steps, out := NearestGreenSteps(state.players[s].position);
        if out == Done {
          out := MovePlayer(s, steps, true, MoveDepth);
        }
      } else if e == OthersMoveForward {
        out := OthersForward(s, value, false);
      } else if e == OthersGainCoinsMove {
        out := OthersForward(s, value, true);
      } else {
        out := Done;
      }
    }

    /** A roll of at most 3 costs player `s` 5 coins (if they have them); a higher roll sends them 10 cells back. */
    method RollLoseOrBack(s: nat) returns (out: Outcome)
      requires Valid() && s < |state.players|
      modifies this`rollsUsed, state.players[s]
      ensures Valid() && out == Done && rollsUsed == old(rollsUsed) + 1
      ensures var w := old(state.players[s].View());
              state.Views() == old(state.Views())[s :=
                if dice(old(rollsUsed)) <= 3 then w.(coins := PaidCoins(w.coins, 5))
                else w.(position := board.ResolveMove(w.position, -10))]
    {
      var roll := RollDie();
      if roll <= 3 {
        var paid := Charge(s, 5);
      } else {
        MoveBack(s, 10);
      }
      out := Done;
    }

    // -----------------------------------------------------------------
    // Effects aimed at one player
    // -----------------------------------------------------------------

    /** `s` gives `t` the gift of `value` coins (see Gift). */
    method GiveTo(s: nat, t: nat, value: int)
      requires Valid() && s < |state.players| && t < |state.players|
      modifies state.players[s], state.players[t]
      ensures Valid()
      ensures state.Views() == Gift(old(state.Views()), s, t, value)
    {
      if value == 10 {
        GiveCoins(t, value);
      } else {
        TransferCoins(s, t, UpTo(value), state.Views());
      }
    }

    /** The aimed coin effects of `s` on `t` (see TargetedCoins). */
    method AimCoins(e: EffectId, s: nat, t: nat, value: int)
      requires Valid() && s < |state.players| && t < |state.players| && TargetCoins(e)
      modifies state.players[s], state.players[t]
      ensures Valid()
      ensures state.Views() == TargetedCoins(e, old(state.Views()), s, t, value)
      ensures pendingEvents == old(pendingEvents) && unchanged(state.shopDeck)
    {
      if e.StealCoinsTarget? {
        TransferCoins(t, s, UpTo(value), state.Views());
      } else if e.ForceEnemyLoseCoins? {
        var paid := Charge(t, value);
      } else {
        GiveTo(s, t, value);
      }
    }

    /**
     * The card effects of `s` on `t`'s hand: nothing to take from an empty
     * hand, the only card taken at once, and a choice put to `s` when there
     * are several (see SeizeOutcome).
     */
    method SeizeCard(e: EffectId, s: nat, t: nat)
      requires Valid() && s < |state.players| && t < |state.players|
      requires e.DiscardEnemyShopCard? || e.StealShopCardLeader?
      modifies this`pendingEvents, state.players[s], state.players[t], state.shopDeck
      ensures Valid() && state.shopDeck.drawPile == old(state.shopDeck.drawPile)
      ensures old(pendingEvents) <= pendingEvents
      ensures SeizeOutcome(e, s, t, old(state.Views()), old(state.shopDeck.discardPile), old(pendingEvents),
                           state.Views(), state.shopDeck.discardPile, pendingEvents)
    {
      var h := state.players[t].hand;
      if |h| == 0 {
        return;
      }
      if |h| > 1 {
        pendingEvents := pendingEvents + [ChooseCardToDiscard(s, t, h)];
        return;
      }
      if e == DiscardEnemyShopCard {
        DiscardOnlyCard(t);
      } else {
        TakeCardBetween(t, s, 0);
      }
    }

    /** Player `t`'s only card goes to the shop's discard pile. */
    method DiscardOnlyCard(t: nat)
      requires Valid() && t < |state.players| && |state.players[t].hand| == 1
      modifies state.players[t], state.shopDeck
      ensures Valid() && state.shopDeck.drawPile == old(state.shopDeck.drawPile)
      ensures state.Views() == old(state.Views())[t := old(state.players[t].View()).(hand := [])]
      ensures state.shopDeck.discardPile == old(state.shopDeck.discardPile) + [old(state.players[t].hand[0])]
    {
      var card := RemoveHandCard(t, 0);
      state.DiscardShop(card.value);
    }

    /** Aimed effect `e` of `s` hits `t` (see HitOutcome); the push moves `t` by a die roll. */
    method ExecuteTargeted(e: EffectId, s: nat, t: nat, value: int) returns (out: Outcome)
      requires Valid() && s < |state.players| && t < |state.players|
      modifies this, state, state.players, state.shopDeck, state.eventDeck, state.tadamDeck
      ensures Valid() && old(pendingEvents) <= pendingEvents
      ensures e != RollPushEnemy ==>
                && rollsUsed == old(rollsUsed) && state.shopDeck.drawPile == old(state.shopDeck.drawPile)
                && HitOutcome(e, s, t, value, old(state.Views()), old(state.shopDeck.discardPile),
                              |old(state.eventDeck.drawPile)| + |old(state.eventDeck.discardPile)|, old(pendingEvents),
                              state.Views(), state.shopDeck.discardPile, pendingEvents, out)
    {
      if e == RollPushEnemy {
        out := PushTarget(t);
      } else {
        out := ExecuteStill(e, s, t, value);
      }
    }

    /** The aimed effects that move nobody (see HitOutcome). */
    method ExecuteStill(e: EffectId, s: nat, t: nat, value: int) returns (out: Outcome)
      requires Valid() && s < |state.players| && t < |state.players|
      modifies this`pendingEvents, state.players, state.shopDeck, state.eventDeck
      ensures Valid() && old(pendingEvents) <= pendingEvents
      ensures state.shopDeck.drawPile == old(state.shopDeck.drawPile)
      ensures HitOutcome(e, s, t, value, old(state.Views()), old(state.shopDeck.discardPile),
                         |old(state.eventDeck.drawPile)| + |old(state.eventDeck.discardPile)|, old(pendingEvents),
                         state.Views(), state.shopDeck.discardPile, pendingEvents, out)
    {
      if TargetCoins(e) || e == ForceEnemyDrawBad {
        out := CoinsOrDraw(e, s, t, value);
      } else {
        out := CardsOrNothing(e, s, t, value);
      }
    }

    /** The aimed coin effects and the forced bad event (see HitOutcome). */
    method CoinsOrDraw(e: EffectId, s: nat, t: nat, value: int) returns (out: Outcome)
      requires TargetCoins(e) || e == ForceEnemyDrawBad
      requires Valid() && s < |state.players| && t < |state.players|
      modifies this`pendingEvents, state.players, state.shopDeck, state.eventDeck
      ensures Valid() && old(pendingEvents) <= pendingEvents
      ensures state.shopDeck.drawPile == old(state.shopDeck.drawPile)
      ensures HitOutcome(e, s, t, value, old(state.Views()), old(state.shopDeck.discardPile),
                         |old(state.eventDeck.drawPile)| + |old(state.eventDeck.discardPile)|, old(pendingEvents),
                         state.Views(), state.shopDeck.discardPile, pendingEvents, out)
    {
      if TargetCoins(e) {
        AimCoins(e, s, t, value);
        out := Done;
      } else {
        out := ForceBadEvent(t);
      }
    }

    /** The aimed card effects and the effects with no aimed branch (see HitOutcome). */
    method CardsOrNothing(e: EffectId, s: nat, t: nat, value: int) returns (out: Outcome)
      requires !TargetCoins(e) && e != ForceEnemyDrawBad
      requires Valid() && s < |state.players| && t < |state.players|
      modifies this`pendingEvents, state.players, state.shopDeck, state.eventDeck
      ensures Valid() && old(pendingEvents) <= pendingEvents
      ensures state.shopDeck.drawPile == old(state.shopDeck.drawPile)
      ensures HitOutcome(e, s, t, value, old(state.Views()), old(state.shopDeck.discardPile),
                         |old(state.eventDeck.drawPile)| + |old(state.eventDeck.discardPile)|, old(pendingEvents),
                         state.Views(), state.shopDeck.discardPile, pendingEvents, out)
    {
      if e.DiscardEnemyShopCard? || e.StealShopCardLeader? {
        SeizeCard(e, s, t);
        out := Done;
      } else {
        out := if e == GiveDoubleTurnEnemy then Raised(NotImplemented) else Done;
      }
    }

    /** Player `t` is handed a bad event card; an exhausted deck raises. */
    method ForceBadEvent(t: nat) returns (out: Outcome)
      requires Valid()
      modifies this`pendingEvents, state.eventDeck
      ensures Valid()
      ensures state.shopDeck.drawPile == old(state.shopDeck.drawPile) && old(pendingEvents) <= pendingEvents
      ensures out == Done <==> |old(state.eventDeck.drawPile)| + |old(state.eventDeck.discardPile)| > 0
      ensures out.Raised? ==> out.fault == EmptyDeck && pendingEvents == old(pendingEvents)
      ensures out == Done ==> |pendingEvents| == |old(pendingEvents)| + 1 && old(pendingEvents) <= pendingEvents &&
                              HandsEvent(pendingEvents[|old(pendingEvents)|], t, false)
    {
      var drawn := DrawEventFor(t, false);
      out := if drawn.None? then Raised(EmptyDeck) else Done;
    }

    /** Player `t` is pushed forward by one die roll, and lands. */
    method PushTarget(t: nat) returns (out: Outcome)
      requires Valid() && t < |state.players|
      modifies this, state, state.players, state.shopDeck, state.eventDeck, state.tadamDeck
      ensures Valid() && old(pendingEvents) <= pendingEvents
    {
      var roll := RollDie();
      out := MovePlayer(t, roll, true, MoveDepth);
    }

    /**
     * An aimed effect of `s`: it hits the given target or the only
     * candidate (see AimAt, returned as `aimed`); with several candidates
     * the choice is put to `s`; the leader theft with nobody ahead does nothing.
     */
    method AimEffect(e: EffectId, s: nat, value: int, target: Option<nat>) returns (out: Outcome, aimed: Option<nat>)
      requires Valid() && s < |state.players| && Targeted(e)
      requires target.Some? ==> target.value < |state.players|
      modifies this, state, state.players, state.shopDeck, state.eventDeck, state.tadamDeck
      ensures Valid() && old(pendingEvents) <= pendingEvents
      ensures aimed == AimAt(e, old(state.Views()), s, target)
      ensures aimed.Some? ==> aimed.value < |state.players|
      ensures aimed.Some? && e != RollPushEnemy ==>
                HitOutcome(e, s, aimed.value, value, old(state.Views()), old(state.shopDeck.discardPile),
                           |old(state.eventDeck.drawPile)| + |old(state.eventDeck.discardPile)|, old(pendingEvents),
                           state.Views(), state.shopDeck.discardPile, pendingEvents, out)
      ensures aimed.None? ==>
                && out == Done && unchanged(state, state.players, state.shopDeck, state.eventDeck, state.tadamDeck)
                && rollsUsed == old(rollsUsed)
                && pendingEvents == old(pendingEvents) +
                     (if e == StealShopCardLeader && |Opponents(e, old(state.Views()), s)| == 0 then []
                      else [ChooseTarget(s, e, value, Opponents(e, old(state.Views()), s))])
    {
      var opponents := Opponents(e, state.Views(), s);
      aimed := AimAt(e, state.Views(), s, target);
      if e == StealShopCardLeader && |opponents| == 0 {
        return Done, aimed;
      }
      if target.Some? {
        out := ExecuteTargeted(e, s, target.value, value);
        return;
      }
      if |opponents| == 1 {
        assert opponents[0] in opponents;
        out := ExecuteTargeted(e, s, opponents[0], value);
      } else {
        pendingEvents := pendingEvents + [ChooseTarget(s, e, value, opponents)];
        out := Done;
      }
    }

    // -----------------------------------------------------------------
    // Chest cards
    // -----------------------------------------------------------------

    /**
     * Effect `e` of a chest-card side with its `value`, for player `s`; an
     * aimed effect hits `target` when one is given.  The effects that
     * neither move nor aim are stated by PlainOutcome, the moving ones by
     * MoveEffect and the aimed ones by AimEffect.
     */
    method ApplyEffect(e: EffectId, s: nat, value: int, target: Option<nat>) returns (out: Outcome)
      requires Valid() && s < |state.players|
      requires target.Some? ==> target.value < |state.players|
      modifies this, state, state.players, state.shopDeck, state.eventDeck, state.tadamDeck
      ensures Valid() && old(pendingEvents) <= pendingEvents
      ensures !Moving(e) && !Targeted(e) ==>
                && rollsUsed == old(rollsUsed) && unchanged(state.shopDeck)
                && PlainOutcome(e, s, value, old(state.Views()), |old(state.eventDeck.drawPile)| + |old(state.eventDeck.discardPile)|,
                                old(pendingEvents), state.Views(), pendingEvents, out)
      ensures Retreating(e) ==>
                && pendingEvents == old(pendingEvents)
                && RetreatOutcome(e, old(state.Views()), s, value, old(rollsUsed), state.Views(), out, rollsUsed)
      ensures !Moving(e) && Targeted(e) ==>
                var aimed := AimAt(e, old(state.Views()), s, target);
                && (aimed.Some? && aimed.value < |state.players| && e != RollPushEnemy ==>
                      HitOutcome(e, s, aimed.value, value, old(state.Views()), old(state.shopDeck.discardPile),
                                 |old(state.eventDeck.drawPile)| + |old(state.eventDeck.discardPile)|, old(pendingEvents),
                                 state.Views(), state.shopDeck.discardPile, pendingEvents, out))
                && (aimed.None? ==> out == Done && state.Views() == old(state.Views()))
    {
      if Moving(e) {
        out := MoveEffect(e, s, value);
      } else {
        assert !Retreating(e);
        out := StillEffect(e, s, value, target);
      }
    }

    /** The chest-card effects that move nobody by themselves: the aimed ones and the plain ones. */
    method StillEffect(e: EffectId, s: nat, value: int, target: Option<nat>) returns (out: Outcome)
      requires Valid() && s < |state.players| && !Moving(e)
      requires target.Some? ==> target.value < |state.players|
      modifies this, state, state.players, state.shopDeck, state.eventDeck, state.tadamDeck
      ensures Valid() && old(pendingEvents) <= pendingEvents
      ensures !Moving(e) && !Targeted(e) ==>
                && rollsUsed == old(rollsUsed) && unchanged(state.shopDeck)
                && PlainOutcome(e, s, value, old(state.Views()), |old(state.eventDeck.drawPile)| + |old(state.eventDeck.discardPile)|,
                                old(pendingEvents), state.Views(), pendingEvents, out)
      ensures Targeted(e) ==>
                var aimed := AimAt(e, old(state.Views()), s, target);
                && (aimed.Some? && aimed.value < |state.players| && e != RollPushEnemy ==>
                      HitOutcome(e, s, aimed.value, value, old(state.Views()), old(state.shopDeck.discardPile),
                                 |old(state.eventDeck.drawPile)| + |old(state.eventDeck.discardPile)|, old(pendingEvents),
                                 state.Views(), state.shopDeck.discardPile, pendingEvents, out))
                && (aimed.None? ==> out == Done && state.Views() == old(state.Views()))
    {
      if Targeted(e) {
        var aimed;
        out, aimed := AimEffect(e, s, value, target);
      } else {
        out := PlainEffect(e, s, value);
      }
    }

    /** The chest-card effects that neither move nor aim (see PlainOutcome). */
    method PlainEffect(e: EffectId, s: nat, value: int) returns (out: Outcome)
      requires Valid() && s < |state.players| && !Moving(e) && !Targeted(e)
      modifies this`pendingEvents, state.players, state.eventDeck
      ensures Valid() && old(pendingEvents) <= pendingEvents
      ensures PlainOutcome(e, s, value, old(state.Views()), |old(state.eventDeck.drawPile)| + |old(state.eventDeck.discardPile)|,
                           old(pendingEvents), state.Views(), pendingEvents, out)
    {
      if CoinsOnly(e) || Unimplemented(e) {
        out := CoinsOrIdle(e, s, value);
      } else {
        out := DrawOrIncome(e, s, value);
      }
    }

    /** The coin effects and the effects the code does not implement (see PlainOutcome). */
    method CoinsOrIdle(e: EffectId, s: nat, value: int) returns (out: Outcome)
      requires Valid() && s < |state.players| && (CoinsOnly(e) || Unimplemented(e))
      modifies state.players
      ensures Valid() && old(pendingEvents) <= pendingEvents
      ensures PlainOutcome(e, s, value, old(state.Views()), |old(state.eventDeck.drawPile)| + |old(state.eventDeck.discardPile)|,
                           old(pendingEvents), state.Views(), pendingEvents, out)
    {
      if CoinsOnly(e) {
        ApplyCoinEffect(e, s, value);
        out := Done;
      } else {
        out := Raised(NotImplemented);
      }
    }

    /** Two bad events, the income of a last-placed player, and the effects with no branch (see PlainOutcome). */
    method DrawOrIncome(e: EffectId, s: nat, value: int) returns (out: Outcome)
      requires Valid() && s < |state.players| && !Moving(e) && !Targeted(e) && !CoinsOnly(e) && !Unimplemented(e)
      modifies this`pendingEvents, state.players[s], state.eventDeck
      ensures Valid() && old(pendingEvents) <= pendingEvents
      ensures PlainOutcome(e, s, value, old(state.Views()), |old(state.eventDeck.drawPile)| + |old(state.eventDeck.discardPile)|,
                           old(pendingEvents), state.Views(), pendingEvents, out)
    {
      if e == Draw2Bad {
        out := DrawTwoBad(s);
      } else if e == RuleLastPlayerIncome {
        if IsLast(s) {
          GiveCoins(s, value);
        }
        out := Done;
      } else {
        out := Done;
      }
    }

    /**
     * A chest card drawn by player `p` is resolved with its good or bad
     * side (aimed sides without a target); once resolved without an error
     * it goes to the discard pile.
     */
    method ResolveEventCard(p: nat, card: ChestCard, isGood: bool) returns (out: Outcome)
      requires Valid() && p < |state.players|
      modifies this, state, state.players, state.shopDeck, state.eventDeck, state.tadamDeck
      ensures Valid() && old(pendingEvents) <= pendingEvents
      ensures out == Done ==> |state.eventDeck.discardPile| > 0 && state.eventDeck.discardPile[|state.eventDeck.discardPile| - 1] == card
      ensures var side := if isGood then card.good else card.bad;
              !Moving(side.effect) && !Targeted(side.effect) ==>
                && rollsUsed == old(rollsUsed) && unchanged(state.shopDeck)
                && PlainOutcome(side.effect, p, side.value, old(state.Views()),
                                |old(state.eventDeck.drawPile)| + |old(state.eventDeck.discardPile)|,
                                old(pendingEvents), state.Views(), pendingEvents, out)
      ensures var side := if isGood then card.good else card.bad;
              Retreating(side.effect) ==>
                && pendingEvents == old(pendingEvents)
                && RetreatOutcome(side.effect, old(state.Views()), p, side.value, old(rollsUsed), state.Views(), out, rollsUsed)
      ensures var side := if isGood then card.good else card.bad;
              var aimed := AimAt(side.effect, old(state.Views()), p, None);
              !Moving(side.effect) && Targeted(side.effect) ==>
                && (aimed.Some? && aimed.value < |state.players| && side.effect != RollPushEnemy ==>
                      HitOutcome(side.effect, p, aimed.value, side.value, old(state.Views()), old(state.shopDeck.discardPile),
                                 |old(state.eventDeck.drawPile)| + |old(state.eventDeck.discardPile)|, old(pendingEvents),
                                 state.Views(), state.shopDeck.discardPile, pendingEvents, out))
                && (aimed.None? ==> out == Done && state.Views() == old(state.Views()))
    {
      var side := if isGood then card.good else card.bad;
      out := ApplyEffect(side.effect, p, side.value, None);
      if out == Done {
        state.DiscardEvent(card);
      }
    }

    /**
     * The answer to a target choice: aimed effect `e` of `s` hits the
     * player whose uid is `uid`; an unknown uid raises.
     */
    method ResolveTargetChoice(s: nat, uid: int, e: EffectId, value: int) returns (out: Outcome)
      requires Valid() && s < |state.players|
      modifies this, state, state.players, state.shopDeck, state.eventDeck, state.tadamDeck
      ensures Valid() && old(pendingEvents) <= pendingEvents
      ensures !(0 <= uid < |state.players|) ==> out == Raised(NoSuchPlayer) && state.Views() == old(state.Views())
      ensures 0 <= uid < |state.players| && e != RollPushEnemy ==>
                HitOutcome(e, s, uid, value, old(state.Views()), old(state.shopDeck.discardPile),
                           |old(state.eventDeck.drawPile)| + |old(state.eventDeck.discardPile)|, old(pendingEvents),
                           state.Views(), state.shopDeck.discardPile, pendingEvents, out)
    {
      var seat := SeatOf(uid);
      if seat.None? {
        return Raised(NoSuchPlayer);
      }
      out := ExecuteTargeted(e, s, seat.value, value);
    }

    /** The seat of the player whose uid is `uid`, found by walking the table. */
    method SeatOf(uid: int) returns (seat: Option<nat>)
      requires Valid()
      ensures seat.Some? <==> 0 <= uid < |state.players|
      ensures seat.Some? ==> seat.value == uid && state.players[seat.value].uid == uid
    {
      var k := 0;
      while k < |state.players|
        invariant 0 <= k <= |state.players|
        invariant forall j :: 0 <= j < k ==> state.players[j].uid != uid
        invariant 0 <= uid < |state.players| ==> k <= uid
      {
        if state.players[k].uid == uid {
          return Some(k);
        }
        k := k + 1;
      }
      return None;
    }

    // -----------------------------------------------------------------
    // Playing a card from the hand
    // -----------------------------------------------------------------

    /**
     * What an active card played by `p` at target `t` does to the table
     * when no die and no chest card is involved: the grenade pushes the
     * target back by the card's value and the hand of fate by 1 (at most
     * three players) or 2, the hook and the harpoon grapple; a card aimed
     * without a target, or any other card, does nothing.
     */
    function CardHit(vs: seq<PlayerView>, p: nat, card: ShopItem, t: Option<nat>): (r: seq<PlayerView>)
      requires p < |vs| && (t.Some? ==> t.value < |vs|)
      reads board
      ensures |r| == |vs|
      ensures forall j :: 0 <= j < |vs| ==> r[j] == vs[j].(position := r[j].position)
      ensures forall j :: 0 <= j < |vs| && j != p && (t.None? || j != t.value) ==> r[j] == vs[j]
      ensures t.None? ==> r == vs
    {
      if t.None? then vs
      else vs[StruckSeat(p, card, t.value) := Struck(vs, p, card, t.value)]
    }

    /** The seat a card played by `p` at `j` may move: the harpoon moves its player, the rest the target. */
    static function StruckSeat(p: nat, card: ShopItem, j: nat): nat
    {
      if card.effect.MoveHarpoon? then p else j
    }

    /** The player on StruckSeat after the card is played: only their position can change. */
    function Struck(vs: seq<PlayerView>, p: nat, card: ShopItem, j: nat): (w: PlayerView)
      requires p < |vs| && j < |vs|
      reads board
      ensures w == vs[StruckSeat(p, card, j)].(position := w.position)
    {
      if card.effect.AttackGrenade? then vs[j].(position := board.ResolveMove(vs[j].position, -card.value))
      else if card.effect.AttackHandFate? then
        vs[j].(position := board.ResolveMove(vs[j].position, -(if |vs| <= 3 then 1 else 2)))
      else if card.effect.AttackHook? && InGrappleReach(vs, p, j) then vs[j].(position := vs[p].position)
      else if card.effect.MoveHarpoon? && InGrappleReach(vs, p, j) then vs[p].(position := vs[j].position)
      else vs[StruckSeat(p, card, j)]
    }

    /** The table after `p` pays for card `card` in slot `cardIdx`, plays it at `t` and marks the slot used. */
    function Played(vs: seq<PlayerView>, p: nat, card: ShopItem, cardIdx: int, t: Option<nat>): (r: seq<PlayerView>)
      requires p < |vs| && (t.Some? ==> t.value < |vs|) && vs[p].coins >= card.useCost
      reads board
      ensures |r| == |vs|
      ensures forall j :: 0 <= j < |vs| ==> r[j].hand == vs[j].hand
      ensures forall j :: 0 <= j < |vs| && j != p ==> r[j].coins == vs[j].coins
      ensures r[p].coins == vs[p].coins - card.useCost
      ensures r[p].usedCardsIndices == vs[p].usedCardsIndices + {cardIdx}
      ensures forall j :: 0 <= j < |vs| && j != p && (t.None? || j != t.value) ==> r[j] == vs[j]
    {
      Marked(CardHit(WithCoins(vs, p, vs[p].coins - card.useCost), p, card, t), p, cardIdx)
    }

    /**
     * Playing a card costs its player exactly its price and moves no card
     * between hands.
     */
    lemma {:induction false} PlayedEffects(vs: seq<PlayerView>, p: nat, card: ShopItem, cardIdx: int, t: Option<nat>)
      requires p < |vs| && (t.Some? ==> t.value < |vs|) && vs[p].coins >= card.useCost
      ensures TotalCoins(Played(vs, p, card, cardIdx, t)) == TotalCoins(vs) - card.useCost
      ensures AllHands(Played(vs, p, card, cardIdx, t)) == AllHands(vs)
    {
      var w := vs[p].(coins := vs[p].coins - card.useCost);
      var r := Played(vs, p, card, cardIdx, t);
      TotalCoinsUpdate(vs, p, w);
      SameCoins(vs[p := w], r);
      SameHands(vs, r);
    }

    /** A hook or a harpoon played at a target in reach leaves the two players on one cell. */
    lemma {:induction false} PlayedMeets(vs: seq<PlayerView>, p: nat, card: ShopItem, cardIdx: int, t: nat)
      requires p < |vs| && t < |vs| && vs[p].coins >= card.useCost
      requires card.effect.AttackHook? || card.effect.MoveHarpoon?
      ensures var r := Played(vs, p, card, cardIdx, Some(t));
              InGrappleReach(vs, p, t) ==> r[p].position == r[t].position
      ensures var r := Played(vs, p, card, cardIdx, Some(t));
              !InGrappleReach(vs, p, t) ==> r[p].position == vs[p].position && r[t].position == vs[t].position
    {
      var paid := vs[p := vs[p].(coins := vs[p].coins - card.useCost)];
      assert InGrappleReach(paid, p, t) == InGrappleReach(vs, p, t);
      PlayedUnfold(vs, p, card, cardIdx, Some(t));
      CardHitCases(paid, p, card, t);
      GrappleMeets(paid, p, t, card.effect.AttackHook?);
    }

    /** CardHit at a target, effect by effect: a push back, a grapple, or nothing. */
    lemma CardHitCases(vs: seq<PlayerView>, p: nat, card: ShopItem, j: nat)
      requires p < |vs| && j < |vs|
      ensures card.effect.AttackGrenade? ==>
                CardHit(vs, p, card, Some(j)) == vs[j := vs[j].(position := board.ResolveMove(vs[j].position, -card.value))]
      ensures card.effect.AttackHandFate? ==>
                CardHit(vs, p, card, Some(j)) ==
                  vs[j := vs[j].(position := board.ResolveMove(vs[j].position, -(if |vs| <= 3 then 1 else 2)))]
      ensures card.effect.AttackHook? ==> CardHit(vs, p, card, Some(j)) == Grapple(vs, p, j, true)
      ensures card.effect.MoveHarpoon? ==> CardHit(vs, p, card, Some(j)) == Grapple(vs, p, j, false)
      ensures (!card.effect.AttackGrenade? && !card.effect.AttackHandFate? && !card.effect.AttackHook? &&
               !card.effect.MoveHarpoon?) ==> CardHit(vs, p, card, Some(j)) == vs
    {
      var i := StruckSeat(p, card, j);
      if !(card.effect.AttackGrenade? || card.effect.AttackHandFate?) && !InGrappleReach(vs, p, j) {
        assert vs[i := Struck(vs, p, card, j)] == vs;
      }
    }

    /** Played, spelled out step by step. */
    lemma PlayedUnfold(vs: seq<PlayerView>, p: nat, card: ShopItem, cardIdx: int, t: Option<nat>)
      requires p < |vs| && (t.Some? ==> t.value < |vs|) && vs[p].coins >= card.useCost
      ensures var hit := CardHit(vs[p := vs[p].(coins := vs[p].coins - card.useCost)], p, card, t);
              Played(vs, p, card, cardIdx, t) == hit[p := hit[p].(usedCardsIndices := hit[p].usedCardsIndices + {cardIdx})]
    {
    }

    /** The hook (`hook`) or the harpoon of `p` at `t`: see Grapple. */
    method GrappleSeat(p: nat, t: nat, hook: bool)
      requires Valid() && p < |state.players| && t < |state.players|
      modifies state.players
      ensures Valid()
      ensures state.Views() == Grapple(old(state.Views()), p, t, hook)
    {
      var from, to := state.players[p].position, state.players[t].position;
      if 0 < to - from <= 10 {
        if hook {
          PlacePlayer(t, from);
        } else {
          PlacePlayer(p, to);
        }
      }
    }

    /** The effect of a card played by `p` at `t` that needs no die and no chest card (see CardHit). */
    method CardStrike(p: nat, card: ShopItem, t: Option<nat>)
      requires Valid() && p < |state.players| && (t.Some? ==> t.value < |state.players|)
      modifies state.players
      ensures Valid()
      ensures state.Views() == CardHit(old(state.Views()), p, card, t)
    {
      ghost var vs := state.Views();
      if t.Some? {
        var j := t.value;
        CardHitCases(vs, p, card, j);
        if card.effect.AttackGrenade? {
          MoveBack(j, card.value);
        } else if card.effect.AttackHandFate? {
          MoveBack(j, if |state.players| <= 3 then 1 else 2);
        } else if card.effect.AttackHook? {
          GrappleSeat(p, j, true);
        } else if card.effect.MoveHarpoon? {
          GrappleSeat(p, j, false);
        }
      }
    }

    /**
     * The effect of card `card` played by `p` at `t`, once paid for: the
     * rocket moves `p` forward by the card's value (and they land), the
     * voodoo hands the target a bad chest card, the rest is CardStrike.
     */
    method CardEffect(p: nat, card: ShopItem, t: Option<nat>) returns (out: Outcome)
      requires Valid() && p < |state.players| && (t.Some? ==> t.value < |state.players|)
      modifies this, state, state.players, state.shopDeck, state.eventDeck, state.tadamDeck
      ensures Valid() && old(pendingEvents) <= pendingEvents
      ensures Settled(card.effect, t) ==>
                && out == Done && pendingEvents == old(pendingEvents) && rollsUsed == old(rollsUsed)
                && state.Views() == CardHit(old(state.Views()), p, card, t)
      ensures card.effect.AttackVoodoo? && t.Some? ==>
                && state.Views() == old(state.Views()) && rollsUsed == old(rollsUsed)
                && (out == Done <==> |old(state.eventDeck.drawPile)| + |old(state.eventDeck.discardPile)| > 0)
                && (out.Raised? ==> out.fault == EmptyDeck && pendingEvents == old(pendingEvents))
                && (out == Done ==> |pendingEvents| == |old(pendingEvents)| + 1 &&
                                    HandsEvent(pendingEvents[|old(pendingEvents)|], t.value, false))
    {
      if card.effect.MoveRocket? {
        out := MovePlayer(p, card.value, true, MoveDepth);
      } else if card.effect.AttackVoodoo? && t.Some? {
        out := ForceBadEvent(t.value);
      } else {
        CardStrike(p, card, t);
        out := Done;
      }
    }

    /**
     * Player `p` plays card `card`, held in slot `cardIdx`, at target `t`.
     * A refused card (see Refused) is not played and changes nothing; an
     * accepted one is paid for, takes effect and is marked used, unless its
     * effect raised, in which case it stays paid for but unmarked.
     */
    method PlayCard(p: nat, cardIdx: int, card: ShopItem, t: Option<nat>) returns (ok: bool, out: Outcome)
      requires Valid() && p < |state.players| && (t.Some? ==> t.value < |state.players|)
      modifies this, state, state.players, state.shopDeck, state.eventDeck, state.tadamDeck
      ensures Valid() && old(pendingEvents) <= pendingEvents
      ensures (!ok && out == Done) <==>
                Refused(card, cardIdx, old(state.players[p].usedCardsIndices), old(state.players[p].coins))
      ensures !ok && out == Done ==>
                state.Views() == old(state.Views()) && pendingEvents == old(pendingEvents) && rollsUsed == old(rollsUsed)
      ensures ok ==> out == Done && old(state.players[p].coins) >= card.useCost
      ensures ok ==> cardIdx in state.players[p].usedCardsIndices
      ensures ok && Settled(card.effect, t) ==>
                && pendingEvents == old(pendingEvents) && rollsUsed == old(rollsUsed)
                && state.Views() == Played(old(state.Views()), p, card, cardIdx, t)
      ensures var used, coins := old(state.players[p].usedCardsIndices), old(state.players[p].coins);
              Settled(card.effect, t) && !Refused(card, cardIdx, used, coins) ==> ok
      ensures card.effect.AttackVoodoo? && t.Some? && ok ==>
                && state.Views() == Played(old(state.Views()), p, card, cardIdx, t) && rollsUsed == old(rollsUsed)
                && |pendingEvents| == |old(pendingEvents)| + 1
                && HandsEvent(pendingEvents[|old(pendingEvents)|], t.value, false)
      ensures var used, coins := old(state.players[p].usedCardsIndices), old(state.players[p].coins);
              card.effect.AttackVoodoo? && t.Some? && !Refused(card, cardIdx, used, coins) ==>
                && (ok <==> |old(state.eventDeck.drawPile)| + |old(state.eventDeck.discardPile)| > 0)
                && (!ok ==> && out == Raised(EmptyDeck) && pendingEvents == old(pendingEvents)
                            && state.Views() == WithCoins(old(state.Views()), p, coins - card.useCost))
    {
      ghost var vs := state.Views();
      var player := state.players[p];
      if card.isPassive || cardIdx in player.usedCardsIndices {
        return false, Done;
      }
      var paid := Charge(p, card.useCost);
      if !paid {
        return false, Done;
      }
      out := PlayPaid(p, cardIdx, card, t, vs);
      ok := out == Done;
    }

    /**
     * The rest of PlayCard once `p` has paid for the card out of table `vs`:
     * its effect, then the slot marked used unless the effect raised.
     */
    method PlayPaid(p: nat, cardIdx: int, card: ShopItem, t: Option<nat>, ghost vs: seq<PlayerView>) returns (out: Outcome)
      requires Valid() && p < |state.players| == |vs| && (t.Some? ==> t.value < |vs|) && vs[p].coins >= card.useCost
      requires state.Views() == WithCoins(vs, p, vs[p].coins - card.useCost)
      modifies this, state, state.players, state.shopDeck, state.eventDeck, state.tadamDeck
      ensures Valid() && old(pendingEvents) <= pendingEvents
      ensures out == Done ==> cardIdx in state.players[p].usedCardsIndices
      ensures Settled(card.effect, t) ==>
                && out == Done && pendingEvents == old(pendingEvents) && rollsUsed == old(rollsUsed)
                && state.Views() == Played(vs, p, card, cardIdx, t)
      ensures card.effect.AttackVoodoo? && t.Some? ==>
                && rollsUsed == old(rollsUsed)
                && (out == Done <==> |old(state.eventDeck.drawPile)| + |old(state.eventDeck.discardPile)| > 0)
                && (out == Done ==> && state.Views() == Played(vs, p, card, cardIdx, t)
                                    && |pendingEvents| == |old(pendingEvents)| + 1
                                    && HandsEvent(pendingEvents[|old(pendingEvents)|], t.value, false))
                && (out != Done ==> && out == Raised(EmptyDeck) && pendingEvents == old(pendingEvents)
                                    && state.Views() == old(state.Views()))
    {
      ghost var charged := state.Views();
      out := CardEffect(p, card, t);
      if out.Raised? {
        return;
      }
      if card.effect.MoveRocket? {
        MarkUsed(p, cardIdx);
      } else {
        if t.Some? && card.effect.AttackVoodoo? {
          CardHitCases(charged, p, card, t.value);
        }
        MarkPlayed(p, cardIdx, card, t, vs);
      }
    }

    /** Marks the slot of a card whose payment out of `vs` and CardHit are done: the table becomes Played. */
    method MarkPlayed(p: nat, cardIdx: int, card: ShopItem, t: Option<nat>, ghost vs: seq<PlayerView>)
      requires Valid() && p < |state.players| == |vs| && (t.Some? ==> t.value < |vs|) && vs[p].coins >= card.useCost
      requires state.Views() == CardHit(WithCoins(vs, p, vs[p].coins - card.useCost), p, card, t)
      modifies state.players[p]
      ensures Valid()
      ensures cardIdx in state.players[p].usedCardsIndices
      ensures state.Views() == Played(vs, p, card, cardIdx, t)
    {
      MarkUsed(p, cardIdx);
    }

    /** Player `p` marks slot `cardIdx` of their hand as used this turn. */
    method MarkUsed(p: nat, cardIdx: int)
      requires Valid() && p < |state.players|
      modifies state.players[p]
      ensures Valid()
      ensures state.Views() == Marked(old(state.Views()), p, cardIdx)
    {
      SeatsDistinct(p);
      state.players[p].MarkCardUsed(cardIdx);
    }

    /**
     * `use_card_from_hand`: the player, the card and the target are looked
     * up by index (see CardRequest; a bad index raises before anything
     * changes) and the card is played (see PlayCard).
     */
    method UseCardFromHand(playerIdx: int, cardIdx: int, targetIdx: Option<int>) returns (ok: bool, out: Outcome)
      requires Valid()
      modifies this, state, state.players, state.shopDeck, state.eventDeck, state.tadamDeck
      ensures Valid() && old(pendingEvents) <= pendingEvents
      ensures CardRequest(old(state.Views()), playerIdx, cardIdx, targetIdx).None? ==>
                && !ok && out == Raised(IndexOutOfRange)
                && state.Views() == old(state.Views()) && pendingEvents == old(pendingEvents)
      ensures var req := CardRequest(old(state.Views()), playerIdx, cardIdx, targetIdx);
              req.Some? ==>
                var (p, card, t) := req.value;
                && ((!ok && out == Done) <==> Refused(card, cardIdx, old(state.players[p].usedCardsIndices),
                                                      old(state.players[p].coins)))
                && (!ok && out == Done ==> state.Views() == old(state.Views()) && pendingEvents == old(pendingEvents))
                && (ok ==> out == Done && old(state.players[p].coins) >= card.useCost)
                && (ok ==> cardIdx in state.players[p].usedCardsIndices)
                && (ok && Settled(card.effect, t) ==> state.Views() == Played(old(state.Views()), p, card, cardIdx, t))
                && (var used, coins := old(state.players[p].usedCardsIndices), old(state.players[p].coins);
                    Settled(card.effect, t) && !Refused(card, cardIdx, used, coins) ==> ok)
      ensures var req := CardRequest(old(state.Views()), playerIdx, cardIdx, targetIdx);
              req.Some? && req.value.1.effect.AttackVoodoo? && req.value.2.Some? ==>
                var (p, card, t) := req.value;
                var used, coins := old(state.players[p].usedCardsIndices), old(state.players[p].coins);
                && (ok ==> && state.Views() == Played(old(state.Views()), p, card, cardIdx, t)
                           && |pendingEvents| == |old(pendingEvents)| + 1
                           && HandsEvent(pendingEvents[|old(pendingEvents)|], t.value, false))
                && (!Refused(card, cardIdx, used, coins) ==>
                      && (ok <==> |old(state.eventDeck.drawPile)| + |old(state.eventDeck.discardPile)| > 0)
                      && (!ok ==> && out == Raised(EmptyDeck) && pendingEvents == old(pendingEvents)
                                  && state.Views() == WithCoins(old(state.Views()), p, coins - card.useCost)))
    {
      ghost var vs := state.Views();
      var req := ResolveRequest(playerIdx, cardIdx, targetIdx);
      if req.None? {
        return false, Raised(IndexOutOfRange);
      }
      var (p, card, t) := req.value;
      ok, out := PlayCard(p, cardIdx, card, t);
    }

    /** Looks up the seat, the card and the target of a request to play a card (see CardRequest). */
    method ResolveRequest(playerIdx: int, cardIdx: int, targetIdx: Option<int>) returns (req: Option<(nat, ShopItem, Option<nat>)>)
      requires Valid()
      ensures req == CardRequest(state.Views(), playerIdx, cardIdx, targetIdx)
    {
      var p := PyIndex(playerIdx, |state.players|);
      if p.None? {
        return None;
      }
      var hand := state.players[p.value].hand;
      var c := PyIndex(cardIdx, |hand|);
      if c.None? {
        return None;
      }
      if targetIdx.None? {
        return Some((p.value, hand[c.value], None));
      }
      var t := PyIndex(targetIdx.value, |state.players|);
      req := if t.None? then None else Some((p.value, hand[c.value], t));
    }

    // -----------------------------------------------------------------
    // Start and end of a turn
    // -----------------------------------------------------------------

    /**
     * One Ta-Dam rule at the start of the turn of `p`, who is last: the
     * income rule pays its value, the aid rule gives a shop card to a hand
     * of fewer than three cards, the good-draw rule hands `p` a good chest
     * card.  An exhausted deck raises.
     */
    method StartRule(p: nat, rule: HouseRule) returns (out: Outcome)
      requires Valid() && p < |state.players|
      modifies this`pendingEvents, state.players[p], state.shopDeck, state.eventDeck
      ensures Valid() && old(pendingEvents) <= pendingEvents
      ensures out.Raised? ==> out.fault == EmptyDeck && (rule.effect.RuleLastAid? || rule.effect.RuleLastDrawGood?)
      ensures var v, w := old(state.players[p].View()), state.players[p].View();
              out == Done ==>
                && w == v.(coins := if rule.effect.RuleLastPlayerIncome? then AddedCoins(v.coins, rule.value) else v.coins,
                           hand := w.hand)
                && v.hand <= w.hand
                && (|w.hand| == |v.hand| + 1 <==> rule.effect.RuleLastAid? && |v.hand| < 3)
      ensures out == Done ==> GoodDraws(p, old(pendingEvents), pendingEvents, if rule.effect.RuleLastDrawGood? then 1 else 0)
    {
      var player := state.players[p];
      if rule.effect.RuleLastPlayerIncome? {
        player.AddCoins(rule.value);
        out := Done;
      } else if rule.effect.RuleLastAid? {
        out := LastAid(player);
      } else if rule.effect.RuleLastDrawGood? {
        var drawn := DrawEventFor(p, true);
        out := if drawn.None? then Raised(EmptyDeck) else Done;
      } else {
        out := Done;
      }
    }

    /** The aid rule: a hand of fewer than three cards gets one from the shop deck; an exhausted deck raises. */
    method LastAid(player: Player) returns (out: Outcome)
      requires state.shopDeck.Valid()
      modifies player`hand, state.shopDeck
      ensures state.shopDeck.Valid()
      ensures out.Raised? ==> out.fault == EmptyDeck
      ensures out == Done ==> player.View() == old(player.View()).(hand := player.hand)
      ensures out == Done ==> old(player.hand) <= player.hand
      ensures out == Done ==> (|player.hand| == |old(player.hand)| + 1 <==> |old(player.hand)| < 3)
    {
      if |player.hand| < 3 {
        var card := state.shopDeck.DrawOne();
        if card.None? {
          return Raised(EmptyDeck);
        }
        var added := player.AddCard(card.value);
      }
      out := Done;
    }

    /** Rule `i` of `rules` in the walk of LastPlayerRules: StartedFrom and GoodDraws carry over to the next rule. */
    method StartRuleAt(p: nat, rules: seq<HouseRule>, i: nat, ghost v: PlayerView, ghost e0: seq<GameEvent>)
      returns (out: Outcome)
      requires Valid() && p < |state.players| && i < |rules| && state.activeRules == rules
      requires StartedFrom(v, state.players[p].View(), rules[..i])
      requires GoodDraws(p, e0, pendingEvents, CountEffect(rules[..i], RuleLastDrawGood))
      modifies this`pendingEvents, state.players[p], state.shopDeck, state.eventDeck
      ensures Valid() && state.activeRules == rules && old(pendingEvents) <= pendingEvents
      ensures out.Raised? ==> out.fault == EmptyDeck
      ensures out == Done ==>
                && StartedFrom(v, state.players[p].View(), rules[..i + 1])
                && GoodDraws(p, e0, pendingEvents, CountEffect(rules[..i + 1], RuleLastDrawGood))
    {
      ghost var w, e1 := state.players[p].View(), pendingEvents;
      out := StartRule(p, rules[i]);
      if out == Done {
        StartStep(p, v, w, state.players[p].View(), rules, i, e0, e1, pendingEvents);
      }
    }

    /**
     * `start_turn_checks`: a player who must skip has the flag cleared and
     * the turn passes on (`skipped`).  Otherwise, when `p` is last, every
     * Ta-Dam rule is applied in queue order (see StartRule): `p` ends up
     * with the income of all the income rules (see LastIncome), keeps their
     * hand and maybe gains cards, and receives one good chest card per
     * good-draw rule.  Anybody else's turn starts with no change.
     */
    method StartTurnChecks(p: nat) returns (skipped: bool, out: Outcome)
      requires Valid() && p < |state.players|
      modifies this`pendingEvents, state`currentPlayerIdx, state.players, state.shopDeck, state.eventDeck
      ensures Valid() && old(pendingEvents) <= pendingEvents
      ensures skipped <==> old(state.players[p].skipNextTurn)
      ensures out.Raised? ==> !skipped && out.fault == EmptyDeck
      ensures skipped ==>
                && out == Done && pendingEvents == old(pendingEvents) && !state.players[p].skipNextTurn
                && state.currentPlayerIdx == (old(state.currentPlayerIdx) + 1) % |state.players|
                && state.Views() == SkippedTo(old(state.Views()), p, state.currentPlayerIdx)
      ensures !skipped ==> state.Views() == old(state.Views())[p := state.players[p].View()]
      ensures !skipped && !old(IsLast(p)) ==>
                out == Done && state.players[p].View() == old(state.players[p].View()) && pendingEvents == old(pendingEvents)
      ensures var rules := old(state.activeRules);
              !skipped && old(IsLast(p)) && out == Done ==>
                && StartedFrom(old(state.players[p].View()), state.players[p].View(), rules)
                && GoodDraws(p, old(pendingEvents), pendingEvents, CountEffect(rules, RuleLastDrawGood))
    {
      if state.players[p].skipNextTurn {
        SkipTurn(p);
        return true, Done;
      }
      skipped := false;
      out := PlayTurnChecks(p);
    }

    /** StartTurnChecks for player `p`, who does not skip: the rules for a last player change `p` alone. */
    method PlayTurnChecks(p: nat) returns (out: Outcome)
      requires Valid() && p < |state.players|
      modifies this`pendingEvents, state.players[p], state.shopDeck, state.eventDeck
      ensures Valid() && old(pendingEvents) <= pendingEvents
      ensures out.Raised? ==> out.fault == EmptyDeck
      ensures state.Views() == old(state.Views())[p := state.players[p].View()]
      ensures !old(IsLast(p)) ==>
                out == Done && state.players[p].View() == old(state.players[p].View()) && pendingEvents == old(pendingEvents)
      ensures var rules := old(state.activeRules);
              old(IsLast(p)) && out == Done ==>
                && StartedFrom(old(state.players[p].View()), state.players[p].View(), rules)
                && GoodDraws(p, old(pendingEvents), pendingEvents, CountEffect(rules, RuleLastDrawGood))
    {
      SeatsDistinct(p);
      out := RulesForLast(p);
      OnlySeatChanged(p);
    }

    /** The start-of-turn Ta-Dam rules when player `p` is last (see StartTurnChecks); otherwise nothing. */
    method RulesForLast(p: nat) returns (out: Outcome)
      requires Valid() && p < |state.players|
      modifies this`pendingEvents, state.players[p], state.shopDeck, state.eventDeck
      ensures Valid() && old(pendingEvents) <= pendingEvents
      ensures out.Raised? ==> out.fault == EmptyDeck
      ensures !old(IsLast(p)) ==>
                out == Done && state.players[p].View() == old(state.players[p].View()) && pendingEvents == old(pendingEvents)
      ensures var rules := old(state.activeRules);
              old(IsLast(p)) && out == Done ==>
                && StartedFrom(old(state.players[p].View()), state.players[p].View(), rules)
                && GoodDraws(p, old(pendingEvents), pendingEvents, CountEffect(rules, RuleLastDrawGood))
    {
      var last := IsLast(p);
      if !last {
        return Done;
      }
      out := LastPlayerRules(p);
    }

    /** A player who must skip has the flag cleared, and the turn passes on. */
    method SkipTurn(p: nat)
      requires Valid() && p < |state.players|
      modifies state`currentPlayerIdx, state.players
      ensures Valid() && !state.players[p].skipNextTurn
      ensures state.currentPlayerIdx == (old(state.currentPlayerIdx) + 1) % |state.players|
      ensures state.Views() == SkippedTo(old(state.Views()), p, state.currentPlayerIdx)
    {
      SeatsDistinct(p);
      ghost var vs := state.Views();
      state.players[p].skipNextTurn := false;
      assert state.Views() == vs[p := vs[p].(skipNextTurn := false)];
      state.NextTurn();
    }

    /** The start-of-turn Ta-Dam rules for player `p`, who is last, in queue order (see StartTurnChecks). */
    method LastPlayerRules(p: nat) returns (out: Outcome)
      requires Valid() && p < |state.players|
      modifies this`pendingEvents, state.players[p], state.shopDeck, state.eventDeck
      ensures Valid() && old(pendingEvents) <= pendingEvents
      ensures out.Raised? ==> out.fault == EmptyDeck
      ensures out == Done ==>
                && StartedFrom(old(state.players[p].View()), state.players[p].View(), state.activeRules)
                && GoodDraws(p, old(pendingEvents), pendingEvents, CountEffect(state.activeRules, RuleLastDrawGood))
    {
      var rules := state.activeRules;
      ghost var v := state.players[p].View();
      var i := 0;
      out := Done;
      while i < |rules| && out == Done
        invariant 0 <= i <= |rules|
        invariant Valid() && state.activeRules == rules && old(pendingEvents) <= pendingEvents
        invariant out.Raised? ==> out.fault == EmptyDeck
        invariant out == Done ==>
                    && StartedFrom(v, state.players[p].View(), rules[..i])
                    && GoodDraws(p, old(pendingEvents), pendingEvents, CountEffect(rules[..i], RuleLastDrawGood))
      {
        out := StartRuleAt(p, rules, i, v, old(pendingEvents));
        i := i + 1;
      }
      if out == Done {
        assert rules[..i] == rules;
      }
    }

    /**
     * One Ta-Dam rule at the end of the turn of `p`, who is last: the dice
     * rule pays one roll of the die, the move rule moves `p` forward by its
     * value (and they land).
     */
    method EndRule(p: nat, rule: HouseRule) returns (out: Outcome)
      requires Valid() && p < |state.players|
      modifies this, state, state.players, state.shopDeck, state.eventDeck, state.tadamDeck
      ensures Valid() && old(pendingEvents) <= pendingEvents
      ensures !rule.effect.RuleLastMove5? ==>
                && out == Done && pendingEvents == old(pendingEvents)
                && state.rulesVersion == old(state.rulesVersion) && state.activeRules == old(state.activeRules)
                && rollsUsed == old(rollsUsed) + (if rule.effect.RuleLastDiceCoins? then 1 else 0)
                && state.Views() == Credited(old(state.Views()), p, if rule.effect.RuleLastDiceCoins? then dice(old(rollsUsed)) else 0)
    {
      SeatsDistinct(p);
      if rule.effect.RuleLastDiceCoins? {
        DiceIncome(p);
        out := Done;
      } else if rule.effect.RuleLastMove5? {
        out := MovePlayer(p, rule.value, true, MoveDepth);
      } else {
        out := Done;
      }
    }

    /** Player `p` gains one roll of the die in coins. */
    method DiceIncome(p: nat)
      requires Valid() && p < |state.players|
      modifies this`rollsUsed, state.players[p]
      ensures Valid() && rollsUsed == old(rollsUsed) + 1
      ensures state.Views() == Credited(old(state.Views()), p, dice(old(rollsUsed)))
    {
      var roll := RollDie();
      GiveCoins(p, roll);
    }

    /** Seat by seat, the players show the table `r`. */
    ghost predicate Shows(r: seq<PlayerView>)
      reads state, state.players
    {
      |r| == |state.players| && forall k :: 0 <= k < |state.players| ==> state.players[k].View() == r[k]
    }

    /** The table is `r` when every seat shows its player in `r`. */
    lemma ViewsAre(r: seq<PlayerView>)
      requires Shows(r)
      ensures state.Views() == r
    {
    }

    /**
     * The walk of EndTurnChecks over `rules` after `n` dice rules and no move
     * rule, seen as the table `cur`, the pending events, the rule queue and
     * the rolls used: no event, no rule change, one roll per dice rule, all
     * of it paid to `p`, and nobody else changed since the table `vs`.
     */
    ghost predicate DiceWalk(cur: seq<PlayerView>, events: seq<GameEvent>, active: seq<HouseRule>, used: nat,
                             p: nat, rules: seq<HouseRule>, vs: seq<PlayerView>, r0: nat, e0: seq<GameEvent>, n: nat)
      requires p < |vs|
    {
      && (forall m: nat :: 1 <= dice(m) <= 6)
      && (events, active, used) == (e0, rules, r0 + n)
      && cur == Credited(vs, p, DiceTotal(r0, n))
    }

    /**
     * The walk of EndTurnChecks after `i` rules with outcome `out`: the game
     * is sound, events were only added since `e0`, the queue is still at
     * `version` unless the walk has stopped, and, when no rule of the queue
     * is the move rule (`still`), DiceWalk holds.
     */
    ghost predicate EndWalk(p: nat, rules: seq<HouseRule>, version: nat, still: bool, vs: seq<PlayerView>, r0: nat,
                            e0: seq<GameEvent>, i: nat, out: Outcome)
      requires p < |vs| && i <= |rules|
      reads this, board, state, state.players, state.shopDeck, state.eventDeck, state.tadamDeck
    {
      && Valid() && e0 <= pendingEvents
      && (out == Done ==> state.rulesVersion == version)
      && (still ==>
            && out == Done
            && DiceWalk(state.Views(), pendingEvents, state.activeRules, rollsUsed, p, rules, vs, r0, e0,
                        CountEffect(rules[..i], RuleLastDiceCoins)))
    }

    /**
     * One rule of the walk of EndTurnChecks, which raises when the rule queue
     * is no longer at `version`; EndWalk carries over one rule further.
     */
    method EndRuleAt(p: nat, rules: seq<HouseRule>, i: nat, version: nat, ghost still: bool, ghost vs: seq<PlayerView>,
                     ghost r0: nat, ghost e0: seq<GameEvent>) returns (out: Outcome)
      requires p < |state.players| == |vs| && i < |rules|
      requires still ==> CountEffect(rules, RuleLastMove5) == 0
      requires EndWalk(p, rules, version, still, vs, r0, e0, i, Done)
      modifies this, state, state.players, state.shopDeck, state.eventDeck, state.tadamDeck
      ensures EndWalk(p, rules, version, still, vs, r0, e0, i + 1, out)
    {
      ghost var u, ru := state.Views(), rollsUsed;
      if still {
        NoneWithEffect(rules, i, RuleLastMove5);
      }
      out := EndRule(p, rules[i]);
      if out == Done && state.rulesVersion != version {
        out := Raised(DequeMutated);
      }
      if still {
        EndStepKeeps(u, pendingEvents, state.activeRules, ru, state.Views(), rollsUsed, p, rules, i, vs, r0, e0);
      }
    }

    /**
     * What EndRule promises for a rule other than the move rule, taking the
     * table `cur` to `cur'` and the rolls used from `used` to `used'`,
     * carries DiceWalk on.
     */
    lemma EndStepKeeps(cur: seq<PlayerView>, events: seq<GameEvent>, active: seq<HouseRule>, used: nat,
                       cur': seq<PlayerView>, used': nat, p: nat, rules: seq<HouseRule>, i: nat, vs: seq<PlayerView>,
                       r0: nat, e0: seq<GameEvent>)
      requires p < |vs| && i < |rules|
      requires DiceWalk(cur, events, active, used, p, rules, vs, r0, e0, CountEffect(rules[..i], RuleLastDiceCoins))
      requires used' == used + (if rules[i].effect.RuleLastDiceCoins? then 1 else 0)
      requires cur' == Credited(cur, p, if rules[i].effect.RuleLastDiceCoins? then dice(used) else 0)
      ensures DiceWalk(cur', events, active, used', p, rules, vs, r0, e0, CountEffect(rules[..i + 1], RuleLastDiceCoins))
    {
      var n := CountEffect(rules[..i], RuleLastDiceCoins);
      DiceCountStep(rules, i, n);
      assert cur' == Credited(vs, p, DiceTotal(r0, CountEffect(rules[..i + 1], RuleLastDiceCoins)));
    }

    /**
     * `end_turn_checks`: when `p` is last every Ta-Dam rule is applied (see
     * LastEndRules); otherwise nothing happens.  Without a move rule, `p`
     * gains one die roll per dice rule, and nothing else changes.
     */
    method EndTurnChecks(p: nat) returns (out: Outcome)
      requires Valid() && p < |state.players|
      modifies this, state, state.players, state.shopDeck, state.eventDeck, state.tadamDeck
      ensures Valid() && old(pendingEvents) <= pendingEvents
      ensures out == Done ==> state.rulesVersion == old(state.rulesVersion)
      ensures !old(IsLast(p)) ==>
                && out == Done && state.Views() == old(state.Views())
                && pendingEvents == old(pendingEvents) && rollsUsed == old(rollsUsed)
      ensures var rules := old(state.activeRules);
              var k := CountEffect(rules, RuleLastDiceCoins);
              old(IsLast(p)) && CountEffect(rules, RuleLastMove5) == 0 ==>
                && out == Done && pendingEvents == old(pendingEvents) && rollsUsed == old(rollsUsed) + k
                && state.Views() == Credited(old(state.Views()), p, DiceTotal(old(rollsUsed), k))
    {
      var last := IsLast(p);
      if !last {
        return Done;
      }
      out := LastEndRules(p);
    }

    /**
     * The walk over the Ta-Dam rules at the end of the last player's turn:
     * each rule is applied in queue order (see EndRule); a change to the
     * rule queue during the walk raises, as a mutated deque does.
     */
    method LastEndRules(p: nat) returns (out: Outcome)
      requires Valid() && p < |state.players|
      modifies this, state, state.players, state.shopDeck, state.eventDeck, state.tadamDeck
      ensures Valid() && old(pendingEvents) <= pendingEvents
      ensures out == Done ==> state.rulesVersion == old(state.rulesVersion)
      ensures var rules := old(state.activeRules);
              CountEffect(rules, RuleLastMove5) == 0 ==>
                && out == Done
                && DiceWalk(state.Views(), pendingEvents, state.activeRules, rollsUsed, p, rules, old(state.Views()),
                            old(rollsUsed), old(pendingEvents), CountEffect(rules, RuleLastDiceCoins))
    {
      var rules := state.activeRules;
      var version := state.rulesVersion;
      ghost var vs, r0, e0 := state.Views(), rollsUsed, pendingEvents;
      ghost var still := CountEffect(rules, RuleLastMove5) == 0;
      var i := 0;
      out := Done;
      while i < |rules| && out == Done
        invariant 0 <= i <= |rules| && EndWalk(p, rules, version, still, vs, r0, e0, i, out)
      {
        out := EndRuleAt(p, rules, i, version, still, vs, r0, e0);
        i := i + 1;
      }
      if still {
        assert rules[..i] == rules;
      }
    }
  }
}
