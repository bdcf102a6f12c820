/**
 * Cards and decks.  Cards are plain data: shop items (Joe's shop), Ta-Dam
 * house rules, and two-sided chest cards (a good side and a bad side).  A
 * deck is a draw pile and a discard pile; drawing pops from the end of the
 * draw pile and, once it is empty, reshuffles the discard pile into it.
 */
module Cards {
  import opened Wrappers

  /** Every effect id the cards and the engine use. */
  datatype EffectId =
    // shop items, active
    | AttackVoodoo | AttackGrenade | AttackHook | MoveHarpoon | MoveRocket | AttackHandFate
    // shop items, passive
    | PassiveRollPlus1 | PassiveRedIncome | PassiveEmptyMove | PassiveEmptyIncome
    // Ta-Dam house rules
    | RuleRedChoice | RuleGreenIncome | RuleGreenExtraTurn | RuleGreenMove | RuleLastAid
    | RuleDoubleReroll | RuleCollisionDuel | RuleLastPlayerIncome | RuleLastDiceCoins
    | RuleSixSkip | RuleRedBad | RuleLastDrawGood | RuleGreenGood | RuleRedTaxAll
    | RuleOvertakeSteal | RuleLastMove5
    // chest card sides
    | GainCoins | LoseCoins | MoveSelfForward | MoveSelfBack | NoEffect | MoveForwardGainCoins
    | MoveNearestGreen | MoveBackToRedOr3 | PayAllOthersBank | StealCoinsFromAll
    | OthersMoveForward | AllLoseCoinsGlobal | OthersGainCoinsMove | Steal2FromAll | Draw2Bad
    | GiveDoubleTurnEnemy | PayCoinsMoveFlexible | PlaceMines | TaxShopCards
    | AllDiscardToOneShopCard | Draw2Keep1Free | PayCoinsMoveOthersBack | SkipTurnMutual
    | DiscardShopOrRed | ExtraTurnPayCoins | RollLoseCoinsOrMoveBack | RollGambleMoneyMove
    | StealCoinsTarget | ForceEnemyDrawBad | DiscardEnemyShopCard | RollPushEnemy
    | Give5ToTarget | Give10ToTarget | ForceEnemyLoseCoins | StealShopCardLeader

  /** One side of a chest card: the effect it triggers and its amount. */
  datatype EventSide = EventSide(effect: EffectId, value: int)

  /** A card; display names, descriptions and sprites are not modelled. */
  datatype Card =
    | ShopCard(uid: string, useCost: int, effect: EffectId, isPassive: bool, value: int)
    | RuleCard(uid: string, effect: EffectId, value: int)
    | EventCard(uid: string, good: EventSide, bad: EventSide)

  type ShopItem = c: Card | c.ShopCard? witness ShopCard("", 0, NoEffect, false, 0)
  type HouseRule = c: Card | c.RuleCard? witness RuleCard("", NoEffect, 0)
  type ChestCard = c: Card | c.EventCard? witness EventCard("", EventSide(NoEffect, 0), EventSide(NoEffect, 0))

  /**
   * A draw pile and a discard pile.  The ghost fields keep the books: the
   * cards the deck was built with, every card drawn so far and every card
   * discarded into it so far.
   */
  class Deck<T(==)> {
    var drawPile: seq<T>
    var discardPile: seq<T>
    ghost const initial: multiset<T>
    ghost var handedOut: multiset<T>
    ghost var returned: multiset<T>

    /** No card appears or vanishes inside the deck: piles + drawn = built with + discarded. */
    ghost predicate Valid()
      reads this
    {
      multiset(drawPile) + multiset(discardPile) + handedOut == initial + returned
    }

    /** Copies the given cards into the draw pile, shuffled; the discard pile starts empty. */
    constructor (cards: seq<T>)
      ensures Valid()
      ensures multiset(drawPile) == multiset(cards) && discardPile == []
      ensures initial == multiset(cards) && handedOut == multiset{} && returned == multiset{}
    {
      drawPile := cards;
      discardPile := [];
      initial := multiset(cards);
      handedOut := multiset{};
      returned := multiset{};
      new;
      Shuffle();
    }

    /** Puts the draw pile in some order; which one is left open. */
    method Shuffle()
      modifies this`drawPile
      ensures multiset(drawPile) == multiset(old(drawPile))
    {
      var shuffled :| multiset(shuffled) == multiset(drawPile);
      drawPile := shuffled;
    }

    /**
     * Draws `count` cards, each popped from the end of the draw pile; an empty
     * draw pile is first refilled from the discard pile.  When both piles are
     * empty the pop fails (`ok` is false) and the cards popped so far are lost
     * to the caller.
     */
    method Draw(count: int) returns (drawn: seq<T>, ok: bool)
      requires Valid()
      modifies this`drawPile, this`discardPile, this`handedOut
      ensures Valid()
      ensures ok <==> count <= |old(drawPile)| + |old(discardPile)|
      ensures ok ==> |drawn| == if count < 0 then 0 else count
      ensures !ok ==> drawPile == [] && discardPile == []
      ensures multiset(drawn) + multiset(drawPile) + multiset(discardPile)
              == multiset(old(drawPile)) + multiset(old(discardPile))
      ensures DrawnInOrder(old(drawPile), old(discardPile), drawn, drawPile, discardPile)
      ensures handedOut == old(handedOut) + multiset(drawn)
    {
      ghost var pile0, discard0 := drawPile, discardPile;
      drawn := [];
      ok := true;
      var i := 0;
      while i < count
        invariant 0 <= i <= if count < 0 then 0 else count
        invariant |drawn| == i
        invariant Valid()
        invariant handedOut == old(handedOut) + multiset(drawn)
        invariant DrawnInOrder(pile0, discard0, drawn, drawPile, discardPile)
      {
        ghost var pile, discard := drawPile, discardPile;
        var next := DrawOne();
        if next.None? {
          // `pop()` on an empty list
          DrawnAll(pile0, discard0, drawn, pile, discard);
          ok := false;
          DrawConserves(pile0, discard0, old(handedOut), drawn);
          return;
        }
        DrawnNext(pile0, discard0, drawn, pile, discard, next.value, drawPile, discardPile);
        drawn := drawn + [next.value];
        i := i + 1;
      }
      DrawConserves(pile0, discard0, old(handedOut), drawn);
      assert |multiset(drawn) + multiset(drawPile) + multiset(discardPile)| == |pile0| + |discard0|;
    }

    /** What the books say about a draw: the drawn cards and the piles are the piles before. */
    lemma DrawConserves(pile0: seq<T>, discard0: seq<T>, handed0: multiset<T>, drawn: seq<T>)
      requires multiset(pile0) + multiset(discard0) + handed0 == initial + returned
      requires Valid() && handedOut == handed0 + multiset(drawn)
      ensures multiset(drawn) + multiset(drawPile) + multiset(discardPile) == multiset(pile0) + multiset(discard0)
    {
      forall x
        ensures (multiset(drawn) + multiset(drawPile) + multiset(discardPile))[x]
                == (multiset(pile0) + multiset(discard0))[x]
      {
        assert (multiset(drawPile) + multiset(discardPile) + handedOut)[x] == (initial + returned)[x];
      }
    }

    /**
     * One turn of the draw loop: refill an empty draw pile from the discard
     * pile, then pop the last card; `ok` is false when there is nothing to pop.
     */
    method DrawOne() returns (top: Option<T>)
      requires Valid()
      modifies this`drawPile, this`discardPile, this`handedOut
      ensures Valid()
      ensures top.Some? <==> |old(drawPile)| + |old(discardPile)| > 0
      ensures top.None? ==> drawPile == [] && discardPile == [] && handedOut == old(handedOut)
      ensures top.Some? && |old(drawPile)| > 0 ==>
                old(drawPile) == drawPile + [top.value] && discardPile == old(discardPile)
      ensures top.Some? && |old(drawPile)| == 0 ==>
                multiset(drawPile) + multiset{top.value} == multiset(old(discardPile)) && discardPile == []
      ensures top.Some? ==> handedOut == old(handedOut) + multiset{top.value}
      ensures top.Some? ==> |drawPile| + |discardPile| == |old(drawPile)| + |old(discardPile)| - 1
    {
      if |drawPile| == 0 {
        Reshuffle();
      }
      if |drawPile| == 0 {
        return None;
      }
      var card := drawPile[|drawPile| - 1];
      assert drawPile == drawPile[..|drawPile| - 1] + [card];
      drawPile := drawPile[..|drawPile| - 1];
      handedOut := handedOut + multiset{card};
      top := Some(card);
    }

    /** Appends `card` to the discard pile, with no check of where it came from. */
    method Discard(card: T)
      requires Valid()
      modifies this`discardPile, this`returned
      ensures Valid()
      ensures discardPile == old(discardPile) + [card]
      ensures returned == old(returned) + multiset{card}
    {
      assert multiset(drawPile) + multiset(discardPile + [card]) + handedOut
          == (multiset(drawPile) + multiset(discardPile) + handedOut) + multiset{card};
      discardPile := discardPile + [card];
      returned := returned + multiset{card};
    }

    /** Moves the whole discard pile into the draw pile and shuffles; nothing happens when it is empty. */
    method Reshuffle()
      modifies this`drawPile, this`discardPile
      ensures |old(discardPile)| == 0 ==> drawPile == old(drawPile) && discardPile == old(discardPile)
      ensures |old(discardPile)| > 0 ==>
                multiset(drawPile) == multiset(old(drawPile)) + multiset(old(discardPile)) &&
                discardPile == []
    {
      if |discardPile| == 0 {
        return;
      }
      drawPile := drawPile + discardPile;
      discardPile := [];
      Shuffle();
    }
  }

  /**
   * Where the cards of a draw come from.  Starting from piles `pile0` and
   * `discard0`, the cards drawn so far are the draw pile popped from its end;
   * only once it is used up is the discard pile shuffled into the draw pile
   * (leaving the discard pile empty), and the rest comes from there.
   */
  ghost predicate DrawnInOrder<T>(pile0: seq<T>, discard0: seq<T>, drawn: seq<T>, pile: seq<T>, discard: seq<T>)
  {
    && (forall k :: 0 <= k < |drawn| && k < |pile0| ==> drawn[k] == pile0[|pile0| - 1 - k])
    && (|drawn| <= |pile0| ==> pile == pile0[..|pile0| - |drawn|] && discard == discard0)
    && (|drawn| > |pile0| ==>
          discard == [] && multiset(drawn[|pile0|..]) + multiset(pile) == multiset(discard0))
  }

  /** One more card popped (after a refill when the draw pile was empty) keeps the order. */
  lemma DrawnNext<T>(pile0: seq<T>, discard0: seq<T>, drawn: seq<T>, pile: seq<T>, discard: seq<T>,
                     top: T, pile': seq<T>, discard': seq<T>)
    requires DrawnInOrder(pile0, discard0, drawn, pile, discard)
    requires |pile| > 0 ==> pile == pile' + [top] && discard' == discard
    requires |pile| == 0 ==> multiset(pile') + multiset{top} == multiset(discard) && discard' == []
    ensures DrawnInOrder(pile0, discard0, drawn + [top], pile', discard')
  {
    var n0 := |pile0|;
    if |drawn| >= n0 {
      assert (drawn + [top])[n0..] == drawn[n0..] + [top];
      assert multiset((drawn + [top])[n0..]) == multiset(drawn[n0..]) + multiset{top};
    }
    if |drawn| < n0 {
      assert pile0[..n0 - |drawn|] == pile0[..n0 - |drawn| - 1] + [pile0[n0 - 1 - |drawn|]];
    }
  }

  /** A pop that finds both piles empty comes after every card of both piles was drawn. */
  lemma DrawnAll<T>(pile0: seq<T>, discard0: seq<T>, drawn: seq<T>, pile: seq<T>, discard: seq<T>)
    requires DrawnInOrder(pile0, discard0, drawn, pile, discard)
    requires pile == [] && discard == []
    ensures |drawn| == |pile0| + |discard0|
  {
    if |drawn| > |pile0| {
      assert multiset(drawn[|pile0|..]) == multiset(discard0);
      assert |drawn[|pile0|..]| == |drawn| - |pile0|;
    }
  }

  /**
   * When every card the deck was built with or took back is out in play,
   * both piles are empty (so the next draw fails).
   */
  lemma ExhaustedDeck<T>(d: Deck<T>)
    requires d.Valid()
    requires |d.handedOut| == |d.initial| + |d.returned|
    ensures d.drawPile == [] && d.discardPile == []
  {
    assert |multiset(d.drawPile) + multiset(d.discardPile) + d.handedOut| == |d.initial + d.returned|;
  }

  // ---------------------------------------------------------------------
  // The deck contents fixed by the card library.
  // ---------------------------------------------------------------------

  function Item(uid: string, useCost: int, effect: EffectId, isPassive: bool, value: int): ShopItem
  {
    ShopCard(uid, useCost, effect, isPassive, value)
  }

  function Rule(uid: string, effect: EffectId, value: int): HouseRule
  {
    RuleCard(uid, effect, value)
  }

  /** The ten kinds of shop item, six active and four passive. */
  function ShopTemplates(): seq<ShopItem>
  {
    [ Item("shop_voodoo", 3, AttackVoodoo, false, 0),
      Item("shop_grenade", 3, AttackGrenade, false, 6),
      Item("shop_hook", 3, AttackHook, false, 10),
      Item("shop_harpoon", 3, MoveHarpoon, false, 10),
      Item("shop_rocket", 3, MoveRocket, false, 5),
      Item("shop_hand_fate", 0, AttackHandFate, false, 2),
      Item("shop_magic_cube", 0, PassiveRollPlus1, true, 1),
      Item("shop_magnet", 0, PassiveRedIncome, true, 5),
      Item("shop_travelator", 0, PassiveEmptyMove, true, 4),
      Item("shop_clover", 0, PassiveEmptyIncome, true, 4) ]
  }

  /** The sixteen Ta-Dam house rules. */
  function RuleCards(): seq<HouseRule>
  {
    [ Rule("rule_red_penalty", RuleRedChoice, 0),
      Rule("rule_green_bonus", RuleGreenIncome, 5),
      Rule("rule_green_reroll", RuleGreenExtraTurn, 0),
      Rule("rule_green_turbo", RuleGreenMove, 7),
      Rule("rule_last_aid", RuleLastAid, 0),
      Rule("rule_double_move", RuleDoubleReroll, 0),
      Rule("rule_aggro", RuleCollisionDuel, 0),
      Rule("rule_last_pity", RuleLastPlayerIncome, 3),
      Rule("rule_last_dice_coins", RuleLastDiceCoins, 0),
      Rule("rule_six_skip", RuleSixSkip, 0),
      Rule("rule_red_bad", RuleRedBad, 0),
      Rule("rule_last_draw_good", RuleLastDrawGood, 0),
      Rule("rule_green_good", RuleGreenGood, 0),
      Rule("rule_red_tax_all", RuleRedTaxAll, 2),
      Rule("rule_overtake_steal", RuleOvertakeSteal, 3),
      Rule("rule_last_move_5", RuleLastMove5, 5) ]
  }

  /** The (good, bad) side pairs of the chest deck: the one pair the library keeps. */
  function EventPairs(): seq<(EventSide, EventSide)>
  {
    [ (EventSide(PlaceMines, 1), EventSide(AllDiscardToOneShopCard, 0)) ]
  }

  /** Every element of `s`, each one twice in a row. */
  function Doubled<T>(s: seq<T>): seq<T>
  {
    if |s| == 0 then [] else [s[0], s[0]] + Doubled(s[1..])
  }

  lemma {:induction false} DoubledAppend<T>(s: seq<T>, x: T)
    ensures Doubled(s + [x]) == Doubled(s) + [x, x]
  {
    if |s| == 0 {
      assert s + [x] == [x];
    } else {
      assert (s + [x])[1..] == s[1..] + [x];
      DoubledAppend(s[1..], x);
    }
  }

  /** Doubling keeps every element in place, twice: position k holds element k / 2. */
  lemma {:induction false} DoubledShape<T>(s: seq<T>)
    ensures |Doubled(s)| == 2 * |s|
    ensures forall k :: 0 <= k < 2 * |s| ==> Doubled(s)[k] == s[k / 2]
    ensures multiset(Doubled(s)) == multiset(s) + multiset(s)
  {
    if |s| > 0 {
      DoubledShape(s[1..]);
      assert s == [s[0]] + s[1..];
      forall k | 2 <= k < 2 * |s|
        ensures Doubled(s)[k] == s[k / 2]
      {
        assert Doubled(s)[k] == Doubled(s[1..])[k - 2];
        assert (k - 2) / 2 == k / 2 - 1;
      }
    }
  }

  /** Builds the doubled list with a loop: each card is appended twice. */
  method DoubleEach<T>(cards: seq<T>) returns (full: seq<T>)
    ensures full == Doubled(cards)
  {
    full := [];
    var i := 0;
    while i < |cards|
      invariant 0 <= i <= |cards|
      invariant full == Doubled(cards[..i])
    {
      DoubledAppend(cards[..i], cards[i]);
      assert cards[..i + 1] == cards[..i] + [cards[i]];
      full := full + [cards[i], cards[i]];
      i := i + 1;
    }
    assert cards[..|cards|] == cards;
  }

  /** Decimal digits of a natural number, as Python's `str` writes it. */
  function DecimalString(n: nat): string
  {
    if n < 10 then ["0123456789"[n]] else DecimalString(n / 10) + ["0123456789"[n % 10]]
  }

  /** Numbers the (good, bad) pairs: the i-th card is `event_i`, with the i-th pair as its sides. */
  method EventCardsOf(pairs: seq<(EventSide, EventSide)>) returns (cards: seq<ChestCard>)
    ensures |cards| == |pairs|
    ensures forall i :: 0 <= i < |pairs| ==>
              cards[i] == EventCard("event_" + DecimalString(i), pairs[i].0, pairs[i].1)
  {
    cards := [];
    var i := 0;
    while i < |pairs|
      invariant 0 <= i <= |pairs|
      invariant |cards| == i
      invariant forall j :: 0 <= j < i ==>
                  cards[j] == EventCard("event_" + DecimalString(j), pairs[j].0, pairs[j].1)
    {
      var (good, bad) := pairs[i];
      cards := cards + [EventCard("event_" + DecimalString(i), good, bad)];
      i := i + 1;
    }
  }

  /** Joe's shop deck: every shop item twice. */
  method CreateShopDeck() returns (d: Deck<ShopItem>)
    ensures fresh(d) && d.Valid()
    ensures multiset(d.drawPile) == multiset(Doubled(ShopTemplates())) && d.discardPile == []
    ensures d.handedOut == multiset{} && d.returned == multiset{}
  {
    var full := DoubleEach(ShopTemplates());
    d := new Deck(full);
  }

  /** The Ta-Dam deck: the sixteen rules, once each. */
  method CreateTadamDeck() returns (d: Deck<HouseRule>)
    ensures fresh(d) && d.Valid()
    ensures multiset(d.drawPile) == multiset(RuleCards()) && d.discardPile == []
    ensures d.handedOut == multiset{} && d.returned == multiset{}
  {
    d := new Deck(RuleCards());
  }

  /** The chest deck, numbered from the pairs the library keeps. */
  method CreateEventDeck() returns (d: Deck<ChestCard>)
    ensures fresh(d) && d.Valid()
    ensures multiset(d.drawPile) == multiset(EventDeckCards()) && d.discardPile == []
    ensures d.handedOut == multiset{} && d.returned == multiset{}
  {
    var cards := EventCardsOf(EventPairs());
    assert cards == EventDeckCards() by {
      assert DecimalString(0) == "0";
      assert "event_" + "0" == "event_0";
      assert cards[0] == EventDeckCards()[0];
    }
    d := new Deck(cards);
  }

  /** The chest deck's single card. */
  function EventDeckCards(): seq<ChestCard>
  {
    [ EventCard("event_0", EventSide(PlaceMines, 1), EventSide(AllDiscardToOneShopCard, 0)) ]
  }

  /** No two cards of a list (of shop items or of rules) share an effect. */
  ghost predicate DistinctEffects(cards: seq<Card>)
  {
    forall i, j :: 0 <= i < j < |cards| && !cards[i].EventCard? && !cards[j].EventCard? ==>
      cards[i].effect != cards[j].effect
  }

  /** In a list of shop items or rules with distinct effects every card occurs exactly once. */
  lemma {:induction false} DistinctOnce(cards: seq<Card>, c: Card)
    requires forall i :: 0 <= i < |cards| ==> !cards[i].EventCard?
    requires DistinctEffects(cards)
    requires c in cards
    ensures multiset(cards)[c] == 1
  {
    if cards[0] == c {
      assert c !in cards[1..] by {
        forall i | 0 <= i < |cards| - 1
          ensures cards[1..][i] != c
        {
          assert cards[0].effect != cards[i + 1].effect;
        }
      }
      assert cards == [cards[0]] + cards[1..];
    } else {
      assert DistinctEffects(cards[1..]) by {
        forall i, j | 0 <= i < j < |cards| - 1
          ensures cards[1..][i].effect != cards[1..][j].effect
        {
          assert cards[1..][i] == cards[i + 1] && cards[1..][j] == cards[j + 1];
        }
      }
      DistinctOnce(cards[1..], c);
      assert cards == [cards[0]] + cards[1..];
    }
  }

  /** The position of a shop item's effect in ShopTemplates (-1 for any other effect). */
  function ShopSlot(e: EffectId): int
  {
    if e.AttackVoodoo? then 0 else if e.AttackGrenade? then 1 else if e.AttackHook? then 2
    else if e.MoveHarpoon? then 3 else if e.MoveRocket? then 4 else if e.AttackHandFate? then 5
    else if e.PassiveRollPlus1? then 6 else if e.PassiveRedIncome? then 7 else if e.PassiveEmptyMove? then 8
    else if e.PassiveEmptyIncome? then 9 else -1
  }

  lemma ShopDistinct()
    ensures DistinctEffects(ShopTemplates())
  {
    var t := ShopTemplates();
    assert forall i :: 0 <= i < |t| ==> ShopSlot(t[i].effect) == i;
  }

  /** Doubling a list of distinct shop items or rules gives each of them exactly twice. */
  lemma TwiceEach(s: seq<Card>)
    requires forall i :: 0 <= i < |s| ==> !s[i].EventCard?
    requires DistinctEffects(s)
    ensures |Doubled(s)| == 2 * |s|
    ensures forall c :: c in s ==> multiset(Doubled(s))[c] == 2
    ensures forall c :: c in Doubled(s) ==> c in s
  {
    DoubledShape(s);
    forall c | c in s
      ensures multiset(Doubled(s))[c] == 2
    {
      DistinctOnce(s, c);
    }
  }

  /** The shop deck has 20 cards: each of the 10 distinct items exactly twice. */
  lemma ShopDeckContents()
    ensures |ShopTemplates()| == 10 && DistinctEffects(ShopTemplates())
    ensures |Doubled(ShopTemplates())| == 20
    ensures forall c :: c in ShopTemplates() ==> multiset(Doubled(ShopTemplates()))[c] == 2
    ensures forall c :: c in Doubled(ShopTemplates()) ==> c in ShopTemplates()
  {
    ShopDistinct();
    TwiceEach(ShopTemplates());
  }

  /** The Ta-Dam deck has 16 rules. */
  lemma RuleDeckContents()
    ensures |RuleCards()| == 16
  {
  }

  /** The chest deck has a single card, `event_0`: place mines, or everybody discards down to one item. */
  lemma EventDeckContents()
    ensures |EventDeckCards()| == 1 && EventDeckCards()[0].uid == "event_0"
    ensures EventDeckCards()[0].good == EventSide(PlaceMines, 1)
    ensures EventDeckCards()[0].bad == EventSide(AllDiscardToOneShopCard, 0)
  {
  }
}
