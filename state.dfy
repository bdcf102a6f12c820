/**
 * Players and the shared game state: whose turn it is, the three decks and
 * the queue of active Ta-Dam house rules.
 */
module State {
  import opened Wrappers
  import opened Config
  import opened Cards

  /** A hand of shop items: never more than MaxHandSize cards. */
  type Hand = h: seq<ShopItem> | |h| <= MaxHandSize

  /** The active Ta-Dam rules, oldest first: never more than TaDamQueueSize. */
  type RuleQueue = q: seq<HouseRule> | |q| <= TaDamQueueSize

  /** Everything a player holds, as a value (for stating what a method changes). */
  datatype PlayerView = PlayerView(
    position: int,
    coins: nat,
    hand: Hand,
    usedCardsIndices: set<int>,
    skipNextTurn: bool,
    hasExtraTurn: bool,
    pendingExtraTurn: bool,
    hasMoved: bool,
    turnChecksDone: bool,
    endChecksDone: bool,
    isFinished: bool)

  /** A player at the start of the game: on the start cell with the starting money and nothing else. */
  const NewPlayer := PlayerView(0, StartMoney, [], {}, false, false, false, false, false, false, false)

  /** A player after the per-turn reset: skipping, a pending extra turn, finishing, coins, position and hand survive. */
  function ResetFlags(v: PlayerView): PlayerView
  {
    v.(usedCardsIndices := {}, hasMoved := false, hasExtraTurn := false, turnChecksDone := false, endChecksDone := false)
  }

  /**
   * The table once player `p` has cleared their skip flag and the turn has
   * passed to seat `next`, whose per-turn flags are reset: only those two
   * seats change, and nobody's coins, position or hand.
   */
  function SkippedTo(vs: seq<PlayerView>, p: nat, next: nat): (r: seq<PlayerView>)
    requires p < |vs| && next < |vs|
    ensures |r| == |vs| && !r[p].skipNextTurn
    ensures forall j :: 0 <= j < |vs| && j != p && j != next ==> r[j] == vs[j]
    ensures forall j :: 0 <= j < |vs| ==>
              r[j].coins == vs[j].coins && r[j].position == vs[j].position && r[j].hand == vs[j].hand
  {
    var w := vs[p := vs[p].(skipNextTurn := false)];
    w[next := ResetFlags(w[next])]
  }

  /** A balance after `add_coins(amount)`: never below zero. */
  function AddedCoins(coins: int, amount: int): nat
  {
    if coins + amount < 0 then 0 else coins + amount
  }

  /** A balance after `pay(amount)`: the whole amount when it can be afforded, otherwise nothing. */
  function PaidCoins(coins: nat, amount: int): nat
  {
    if coins >= amount then coins - amount else coins
  }

  class Player {
    const uid: nat
    var position: int
    var coins: nat
    var hand: Hand
    var usedCardsIndices: set<int>
    var skipNextTurn: bool
    var hasExtraTurn: bool
    /** Survives the per-turn reset. */
    var pendingExtraTurn: bool
    var hasMoved: bool
    var turnChecksDone: bool
    var endChecksDone: bool
    var isFinished: bool

    function View(): PlayerView
      reads this
    {
      PlayerView(position, coins, hand, usedCardsIndices, skipNextTurn, hasExtraTurn,
                 pendingExtraTurn, hasMoved, turnChecksDone, endChecksDone, isFinished)
    }

    constructor (uid: nat)
      ensures this.uid == uid
      ensures View() == NewPlayer
    {
      this.uid := uid;
      position := 0;
      coins := StartMoney;
      hand := [];
      usedCardsIndices := {};
      skipNextTurn := false;
      hasExtraTurn := false;
      pendingExtraTurn := false;
      hasMoved := false;
      turnChecksDone := false;
      endChecksDone := false;
      isFinished := false;
    }

    /** Whether paying `amount` would leave a non-negative balance. */
    predicate CanAfford(amount: int)
      reads this
    {
      coins >= amount
    }

    /** Pay-or-fail: the whole amount is taken, or nothing is. */
    method Pay(amount: int) returns (paid: bool)
      modifies this`coins
      ensures paid <==> old(CanAfford(amount))
      ensures coins == PaidCoins(old(coins), amount)
      ensures View() == old(View()).(coins := coins)
    {
      if coins >= amount {
        coins := coins - amount;
        return true;
      }
      return false;
    }

    /** Adds (or, for a negative amount, takes) coins, stopping at zero. */
    method AddCoins(amount: int)
      modifies this`coins
      ensures coins == AddedCoins(old(coins), amount)
      ensures View() == old(View()).(coins := coins)
    {
      coins := if coins + amount < 0 then 0 else coins + amount;
    }

    /** Takes a card into the hand unless the hand is full. */
    method AddCard(card: ShopItem) returns (added: bool)
      modifies this`hand
      ensures added <==> |old(hand)| < MaxHandSize
      ensures hand == if added then old(hand) + [card] else old(hand)
      ensures View() == old(View()).(hand := hand)
    {
      if |hand| >= MaxHandSize {
        return false;
      }
      hand := hand + [card];
      return true;
    }

    /** Removes and returns the card at `index`; an index outside the hand removes nothing. */
    method RemoveCard(index: int) returns (card: Option<ShopItem>)
      modifies this`hand
      ensures 0 <= index < |old(hand)| ==>
                card == Some(old(hand)[index]) && hand == old(hand)[..index] + old(hand)[index + 1..]
      ensures !(0 <= index < |old(hand)|) ==> card == None && hand == old(hand)
      ensures |hand| <= |old(hand)|
      ensures View() == old(View()).(hand := hand)
    {
      if 0 <= index < |hand| {
        card := Some(hand[index]);
        hand := hand[..index] + hand[index + 1..];
      } else {
        card := None;
      }
    }

    method MarkCardUsed(index: int)
      modifies this`usedCardsIndices
      ensures usedCardsIndices == old(usedCardsIndices) + {index}
      ensures View() == old(View()).(usedCardsIndices := usedCardsIndices)
    {
      usedCardsIndices := usedCardsIndices + {index};
    }

    /** Clears the per-turn flags; skipping, a pending extra turn and finishing survive. */
    method ResetTurnFlags()
      modifies this`usedCardsIndices, this`hasMoved, this`hasExtraTurn, this`turnChecksDone, this`endChecksDone
      ensures View() == ResetFlags(old(View()))
    {
      usedCardsIndices := {};
      hasMoved := false;
      hasExtraTurn := false;
      turnChecksDone := false;
      endChecksDone := false;
    }
  }

  /** The rule queue after one more rule is added: at capacity, the oldest rule is dropped. */
  function Enqueue(queue: RuleQueue, rule: HouseRule): RuleQueue
  {
    (if |queue| == TaDamQueueSize then queue[1..] else queue) + [rule]
  }

  /** The rule queue after the rules are added one after the other. */
  function EnqueueAll(queue: RuleQueue, rules: seq<HouseRule>): RuleQueue
    decreases |rules|
  {
    if |rules| == 0 then queue else EnqueueAll(Enqueue(queue, rules[0]), rules[1..])
  }

  /** The last (at most) TaDamQueueSize elements of a sequence. */
  function Newest<T>(s: seq<T>): seq<T>
  {
    if |s| <= TaDamQueueSize then s else s[|s| - TaDamQueueSize..]
  }

  lemma NewestOfNewest<T>(s: seq<T>, t: seq<T>)
    ensures Newest(Newest(s) + t) == Newest(s + t)
  {
    if |s| > TaDamQueueSize {
      assert Newest(s) + t == (s + t)[|s| - TaDamQueueSize..];
    }
  }

  /**
   * The queue is a sliding window: whatever was added, it holds the newest
   * rules, at most three, oldest first.
   */
  lemma {:induction false} QueueHoldsNewest(queue: RuleQueue, rules: seq<HouseRule>)
    ensures EnqueueAll(queue, rules) == Newest(queue + rules)
    decreases |rules|
  {
    if |rules| > 0 {
      var q := Enqueue(queue, rules[0]);
      assert q == Newest(queue + [rules[0]]);
      QueueHoldsNewest(q, rules[1..]);
      NewestOfNewest(queue + [rules[0]], rules[1..]);
      assert queue + [rules[0]] + rules[1..] == queue + rules;
    } else {
      assert queue + rules == queue;
    }
  }

  /**
   * The three decks a new game starts with, built by CreateShopDeck, CreateEventDeck and
   * CreateTadamDeck (whose contracts state their contents); only what the game state relies on is kept here.
   */
  method NewDecks() returns (shop: Deck<ShopItem>, events: Deck<ChestCard>, tadam: Deck<HouseRule>)
    ensures fresh(shop) && fresh(events) && fresh(tadam)
    ensures shop.Valid() && events.Valid() && tadam.Valid()
    ensures shop.discardPile == [] && events.discardPile == [] && tadam.discardPile == []
  {
    shop := CreateShopDeck();
    events := CreateEventDeck();
    tadam := CreateTadamDeck();
  }

  class GameState {
    const players: seq<Player>
    var currentPlayerIdx: int
    const shopDeck: Deck<ShopItem>
    const eventDeck: Deck<ChestCard>
    const tadamDeck: Deck<HouseRule>
    var activeRules: RuleQueue
    /** Bumped by every change to the rule queue, so that a walk over it can tell it was changed. */
    var rulesVersion: nat

    ghost predicate Valid()
      reads this, shopDeck, eventDeck, tadamDeck
    {
      && |players| >= 1
      && 0 <= currentPlayerIdx < |players|
      && (forall i :: 0 <= i < |players| ==> players[i].uid == i)
      && shopDeck.Valid() && eventDeck.Valid() && tadamDeck.Valid()
    }

    /** Seats `playerCount` new players (uids 0, 1, ...) and builds the three decks. */
    constructor (playerCount: nat)
      requires playerCount >= 1
      ensures Valid()
      ensures |players| == playerCount && currentPlayerIdx == 0 && activeRules == []
      ensures forall i :: 0 <= i < |players| ==> fresh(players[i]) && players[i].View() == NewPlayer
      ensures fresh(shopDeck) && fresh(eventDeck) && fresh(tadamDeck)
      ensures shopDeck.discardPile == [] && eventDeck.discardPile == [] && tadamDeck.discardPile == []
    {
      var seated: seq<Player> := [];
      var i := 0;
      while i < playerCount
        invariant 0 <= i <= playerCount
        invariant |seated| == i
        invariant forall k :: 0 <= k < i ==>
                    fresh(seated[k]) && seated[k].uid == k && seated[k].View() == NewPlayer
      {
        var p := new Player(i);
        seated := seated + [p];
        i := i + 1;
      }
      var shop, events, tadam := NewDecks();
      players := seated;
      currentPlayerIdx := 0;
      shopDeck, eventDeck, tadamDeck := shop, events, tadam;
      activeRules := [];
      rulesVersion := 0;
    }

    /** Every player's state as a value, in seating order. */
    function Views(): (vs: seq<PlayerView>)
      reads players
      ensures |vs| == |players| && forall i :: 0 <= i < |players| ==> vs[i] == players[i].View()
    {
      seq(|players|, i requires 0 <= i < |players| reads players => players[i].View())
    }

    /** The player whose turn it is. */
    function CurrentPlayer(): (p: Player)
      requires Valid()
      reads this, shopDeck, eventDeck, tadamDeck
      ensures p in players && p.uid == currentPlayerIdx
    {
      players[currentPlayerIdx]
    }

    /** Passes the turn round-robin and clears the new current player's per-turn flags. */
    method NextTurn()
      requires Valid()
      modifies this`currentPlayerIdx, players
      ensures Valid()
      ensures currentPlayerIdx == (old(currentPlayerIdx) + 1) % |players|
      ensures var p := players[currentPlayerIdx];
              p.View() == ResetFlags(old(p.View()))
      ensures forall i :: 0 <= i < |players| && i != currentPlayerIdx ==> players[i].View() == old(players[i].View())
    {
      currentPlayerIdx := (currentPlayerIdx + 1) % |players|;
      players[currentPlayerIdx].ResetTurnFlags();
    }

    /** Draws one shop card (see Deck.DrawOne); `None` when the shop deck is exhausted. */
    method DrawShop() returns (card: Option<ShopItem>)
      requires Valid()
      modifies shopDeck
      ensures Valid()
      ensures card.None? <==> |old(shopDeck.drawPile)| + |old(shopDeck.discardPile)| == 0
      ensures card.Some? ==> shopDeck.handedOut == old(shopDeck.handedOut) + multiset{card.value}
    {
      card := shopDeck.DrawOne();
    }

    /** Draws one chest card (see Deck.DrawOne); `None` when the event deck is exhausted.  The players are untouched. */
    method DrawEvent() returns (card: Option<ChestCard>)
      requires Valid()
      modifies eventDeck
      ensures Valid()
      ensures Views() == old(Views())
      ensures card.None? <==> |old(eventDeck.drawPile)| + |old(eventDeck.discardPile)| == 0
      ensures card.Some? ==> eventDeck.handedOut == old(eventDeck.handedOut) + multiset{card.value}
      ensures card.Some? ==>
                |eventDeck.drawPile| + |eventDeck.discardPile| == |old(eventDeck.drawPile)| + |old(eventDeck.discardPile)| - 1
    {
      card := eventDeck.DrawOne();
    }

    /** Draws one Ta-Dam rule card (see Deck.DrawOne); `None` when the deck is exhausted.  The players are untouched. */
    method DrawRule() returns (rule: Option<HouseRule>)
      requires Valid()
      modifies tadamDeck
      ensures Valid()
      ensures Views() == old(Views())
      ensures rule.None? <==> |old(tadamDeck.drawPile)| + |old(tadamDeck.discardPile)| == 0
      ensures rule.Some? ==> tadamDeck.handedOut == old(tadamDeck.handedOut) + multiset{rule.value}
    {
      rule := tadamDeck.DrawOne();
    }

    /** A chest card goes on top of the event discard pile; the table does not change. */
    method DiscardEvent(card: ChestCard)
      requires Valid()
      modifies eventDeck
      ensures Valid() && Views() == old(Views())
      ensures eventDeck.discardPile == old(eventDeck.discardPile) + [card]
      ensures eventDeck.drawPile == old(eventDeck.drawPile)
    {
      eventDeck.Discard(card);
    }

    /** Puts `card` on the shop's discard pile; the players and the draw pile are untouched. */
    method DiscardShop(card: ShopItem)
      requires Valid()
      modifies shopDeck
      ensures Valid()
      ensures shopDeck.discardPile == old(shopDeck.discardPile) + [card]
      ensures shopDeck.drawPile == old(shopDeck.drawPile)
    {
      shopDeck.Discard(card);
    }

    /** Adds a rule at the back of the queue, dropping the front rule when three are active. */
    method AddRule(rule: HouseRule)
      requires Valid()
      modifies this`activeRules, this`rulesVersion
      ensures Valid() && Views() == old(Views())
      ensures activeRules == Enqueue(old(activeRules), rule)
      ensures |old(activeRules)| == TaDamQueueSize ==> activeRules == old(activeRules)[1..] + [rule]
      ensures |old(activeRules)| < TaDamQueueSize ==> activeRules == old(activeRules) + [rule]
      ensures rulesVersion > old(rulesVersion)
    {
      if |activeRules| == TaDamQueueSize {
        activeRules := activeRules[1..];
      }
      activeRules := activeRules + [rule];
      rulesVersion := rulesVersion + 1;
    }
  }
}
