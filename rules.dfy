/**
 * What the engine's turn logic computes, stated as pure functions over
 * values: dice and movement options, the duel, Python-style list indexing,
 * coin transfers between players and last place.  The engine's methods are
 * proved against these functions; the lemmas here say what they mean.
 */
module Rules {
  import opened Wrappers
  import opened Config
  import opened Cards
  import opened State

  // ---------------------------------------------------------------------
  // Python list indexing
  // ---------------------------------------------------------------------

  /**
   * The element position `xs[i]` refers to in a list of length `n`:
   * negative indices count from the end, and None stands for IndexError.
   */
  function PyIndex(i: int, n: nat): (r: Option<nat>)
    ensures r.Some? <==> -(n as int) <= i < n
    ensures r.Some? ==> r.value < n && (r.value == i || r.value == n + i)
  {
    if 0 <= i < n then Some(i) else if -(n as int) <= i < 0 then Some(n + i) else None
  }

  // ---------------------------------------------------------------------
  // Dice and movement options
  // ---------------------------------------------------------------------

  function Sum(s: seq<int>): int
  {
    if |s| == 0 then 0 else Sum(s[..|s| - 1]) + s[|s| - 1]
  }

  /** A sum of die faces lies between the number of dice and six times that. */
  lemma {:induction false} SumOfDice(s: seq<int>)
    requires forall k :: 0 <= k < |s| ==> 1 <= s[k] <= 6
    ensures |s| <= Sum(s) <= 6 * |s|
  {
    if |s| > 0 {
      SumOfDice(s[..|s| - 1]);
    }
  }

  /** How many dice a player rolls from `pos` (off the fortune cube): two from cell 24 on. */
  function RollCount(pos: int): nat
  {
    if 24 <= pos <= 97 then 2 else 1
  }

  /** On the fortune cube, or from cell 68 to the finish, the dice are summed into one move. */
  predicate SummingZone(onFortuneCube: bool, pos: int)
  {
    onFortuneCube || 68 <= pos <= 97
  }

  predicate Increasing(s: seq<int>)
  {
    forall i, j :: 0 <= i < j < |s| ==> s[i] < s[j]
  }

  /** Adds `x` to a strictly increasing sequence, keeping it strictly increasing. */
  function Insert(s: seq<int>, x: int): (r: seq<int>)
    requires Increasing(s)
    ensures Increasing(r)
    ensures forall y :: y in r <==> y in s || y == x
    decreases |s|
  {
    if |s| == 0 then [x]
    else if x < s[0] then [x] + s
    else if x == s[0] then s
    else
      var t := Insert(s[1..], x);
      assert forall y :: y in t ==> s[0] < y by {
        forall y | y in t
          ensures s[0] < y
        {
          if y != x {
            var i :| 0 <= i < |s[1..]| && s[1..][i] == y;
            assert s[i + 1] == y;
          }
        }
      }
      assert forall j :: 0 <= j < |t| ==> t[j] in t;
      [s[0]] + t
  }

  /** `x` is a move open to a player off the summing zones: a die, or a die + 1 with the magic cube. */
  predicate IsOption(rolls: seq<int>, hasCube: bool, x: int)
  {
    x in rolls || (hasCube && x - 1 in rolls)
  }

  /** The options of `rolls` built die by die with `Insert`: strictly increasing by construction. */
  function Options(rolls: seq<int>, hasCube: bool): (r: seq<int>)
    ensures Increasing(r)
    decreases |rolls|
  {
    if |rolls| == 0 then []
    else
      var x := rolls[|rolls| - 1];
      var o := Insert(Options(rolls[..|rolls| - 1], hasCube), x);
      if hasCube then Insert(o, x + 1) else o
  }

  /** The options built die by die are exactly the dice (and, with the cube, each die + 1). */
  lemma {:induction false} OptionsMembers(rolls: seq<int>, hasCube: bool, x: int)
    ensures x in Options(rolls, hasCube) <==> IsOption(rolls, hasCube, x)
    decreases |rolls|
  {
    if |rolls| > 0 {
      var n := |rolls| - 1;
      OptionsMembers(rolls[..n], hasCube, x);
      assert rolls == rolls[..n] + [rolls[n]];
    }
  }

  // ---------------------------------------------------------------------
  // The duel
  // ---------------------------------------------------------------------

  /** The two totals of a duel and the index of the winner, None on a tie. */
  datatype DuelResult = DuelResult(atkRoll: int, defRoll: int, winner: Option<nat>)

  /** The attacker adds 2 to their die; the higher total wins and equal totals are a draw. */
  function DuelRoll(attacker: nat, defender: nat, atkDie: int, defDie: int): (r: DuelResult)
    ensures r.atkRoll == atkDie + 2 && r.defRoll == defDie
    ensures r.winner.None? <==> atkDie == defDie - 2
    ensures attacker != defender ==>
              (r.winner == Some(attacker) <==> atkDie >= defDie - 1) &&
              (r.winner == Some(defender) <==> atkDie <= defDie - 3)
  {
    var atk := atkDie + 2;
    var winner := if atk > defDie then attacker else defender;
    DuelResult(atk, defDie, if atk == defDie then None else Some(winner))
  }

  // ---------------------------------------------------------------------
  // Coins across the table
  // ---------------------------------------------------------------------

  /** The table `vs` with player `p` holding `c` coins and nothing else changed. */
  function WithCoins(vs: seq<PlayerView>, p: nat, c: nat): seq<PlayerView>
    requires p < |vs|
  {
    vs[p := vs[p].(coins := c)]
  }

  /** The table `vs` with slot `cardIdx` of player `p`'s hand marked used and nothing else changed. */
  function Marked(vs: seq<PlayerView>, p: nat, cardIdx: int): seq<PlayerView>
    requires p < |vs|
  {
    vs[p := vs[p].(usedCardsIndices := vs[p].usedCardsIndices + {cardIdx})]
  }

  /** The table `vs` with player `p` standing on `pos` and nothing else changed. */
  function WithPosition(vs: seq<PlayerView>, p: nat, pos: int): seq<PlayerView>
    requires p < |vs|
  {
    vs[p := vs[p].(position := pos)]
  }

  /** The table `vs` once player `p` has been given `card`: it joins the hand when the hand has room. */
  function Handed(vs: seq<PlayerView>, p: nat, card: ShopItem): seq<PlayerView>
    requires p < |vs|
  {
    if |vs[p].hand| < MaxHandSize then vs[p := vs[p].(hand := vs[p].hand + [card])] else vs
  }

  /** The coins of all players together. */
  function TotalCoins(vs: seq<PlayerView>): nat
  {
    if |vs| == 0 then 0 else TotalCoins(vs[..|vs| - 1]) + vs[|vs| - 1].coins
  }

  /** Replacing one player changes the total by the difference of their balances. */
  lemma {:induction false} TotalCoinsUpdate(vs: seq<PlayerView>, i: nat, w: PlayerView)
    requires i < |vs|
    ensures TotalCoins(vs[i := w]) == TotalCoins(vs) - vs[i].coins + w.coins
    decreases |vs|
  {
    var ws := vs[i := w];
    if i < |vs| - 1 {
      assert ws[..|ws| - 1] == vs[..|vs| - 1][i := w];
      TotalCoinsUpdate(vs[..|vs| - 1], i, w);
    } else {
      assert ws[..|ws| - 1] == vs[..|vs| - 1];
    }
  }

  /** The balances of an overtaken player and of the mover who passed them. */
  datatype Balances = Balances(victim: nat, mover: nat)

  /** One Ta-Dam rule applied to an overtaken player (coins `v`) and the mover (coins `m`). */
  function StealStep(v: nat, m: nat, rule: HouseRule): Balances
  {
    if rule.effect == RuleOvertakeSteal then
      var amount := if v < rule.value then v else rule.value;
      Balances(PaidCoins(v, amount), AddedCoins(m, amount))
    else
      Balances(v, m)
  }

  /** Every active rule applied in queue order to one overtaken player and the mover. */
  function StealRound(v: nat, m: nat, rules: seq<HouseRule>): Balances
    decreases |rules|
  {
    if |rules| == 0 then Balances(v, m)
    else
      var vm := StealStep(v, m, rules[0]);
      StealRound(vm.victim, vm.mover, rules[1..])
  }

  /** What an overtaken player keeps: each overtake rule takes min(coins, value). */
  function VictimLeft(v: nat, rules: seq<HouseRule>): nat
    decreases |rules|
  {
    if |rules| == 0 then v
    else
      var rule := rules[0];
      VictimLeft(if rule.effect == RuleOvertakeSteal then v - (if v < rule.value then v else rule.value) else v, rules[1..])
  }

  /**
   * The overtaken player's balance does not depend on the mover's, and with
   * non-negative rule values coins only pass from the victim to the mover.
   */
  lemma {:induction false} StealRoundMoves(v: nat, m: nat, rules: seq<HouseRule>)
    ensures StealRound(v, m, rules).victim == VictimLeft(v, rules)
    ensures (forall k :: 0 <= k < |rules| ==> rules[k].value >= 0) ==>
              var vm := StealRound(v, m, rules);
              vm.victim <= v && vm.mover >= m && vm.victim + vm.mover == v + m
    decreases |rules|
  {
    if |rules| > 0 {
      var vm := StealStep(v, m, rules[0]);
      StealRoundMoves(vm.victim, vm.mover, rules[1..]);
      assert forall k :: 0 <= k < |rules[1..]| ==> rules[1..][k] == rules[k + 1];
    }
  }

  /** A single overtake rule of value x takes exactly min(coins, x). */
  lemma OneOvertakeRule(v: nat, rule: HouseRule)
    requires rule.effect == RuleOvertakeSteal
    ensures VictimLeft(v, [rule]) == v - (if v < rule.value then v else rule.value)
  {
    assert [rule][1..] == [];
  }

  /** Start < position <= target: the mover passed or reached this player. */
  predicate Overtaken(pos: int, start: int, target: int)
  {
    start < pos <= target
  }

  /** Seat `j` in the overtake pass: if the mover `p` passed it, every rule is applied to it and the mover. */
  function OvertakeStep(r: seq<PlayerView>, p: nat, j: nat, start: int, target: int, rules: seq<HouseRule>)
    : (r': seq<PlayerView>)
    requires p < |r| && j < |r|
    ensures |r'| == |r|
  {
    if j != p && Overtaken(r[j].position, start, target) then
      var vm := StealRound(r[j].coins, r[p].coins, rules);
      r[j := r[j].(coins := vm.victim)][p := r[p].(coins := vm.mover)]
    else
      r
  }

  /**
   * The players after the mover `p` went from `start` to `target`: the first
   * `k` seats, in order, each overtaken one robbed by every overtake rule.
   */
  function OvertakeViews(vs: seq<PlayerView>, p: nat, start: int, target: int, rules: seq<HouseRule>, k: nat)
    : (r: seq<PlayerView>)
    requires p < |vs| && k <= |vs|
    ensures |r| == |vs|
  {
    if k == 0 then vs else OvertakeStep(OvertakeViews(vs, p, start, target, rules, k - 1), p, k - 1, start, target, rules)
  }

  /**
   * Every intermediate table of an overtake: entry `k` is the table once the
   * first `k` seats have been checked (and robbed when overtaken).
   */
  ghost method OvertakePlan(vs: seq<PlayerView>, p: nat, start: int, target: int, rules: seq<HouseRule>)
    returns (t: seq<seq<PlayerView>>)
    requires p < |vs|
    ensures |t| == |vs| + 1 && t[0] == vs && t[|vs|] == OvertakeViews(vs, p, start, target, rules, |vs|)
    ensures forall k :: 0 <= k < |vs| ==> |t[k]| == |vs| && t[k + 1] == OvertakeStep(t[k], p, k, start, target, rules)
  {
    t := seq(|vs| + 1, k requires 0 <= k <= |vs| => OvertakeViews(vs, p, start, target, rules, k));
    forall k | 0 <= k < |vs|
      ensures |t[k]| == |vs| && t[k + 1] == OvertakeStep(t[k], p, k, start, target, rules)
    {
      assert t[k + 1] == OvertakeViews(vs, p, start, target, rules, k + 1);
    }
  }

  /** What an overtaken player `v` is left with once every rule has been applied. */
  function Robbed(v: PlayerView, rules: seq<HouseRule>): PlayerView
  {
    v.(coins := VictimLeft(v.coins, rules))
  }

  /**
   * Overtaking changes balances only: every other player `j` overtaken loses
   * exactly what the rules take from them, independently of the order of seats.
   */
  lemma OvertakeOthers(vs: seq<PlayerView>, p: nat, start: int, target: int,
                       rules: seq<HouseRule>, k: nat, j: nat)
    requires p < |vs| && k <= |vs| && j < |vs| && j != p
    ensures j < k && Overtaken(vs[j].position, start, target) ==>
              OvertakeViews(vs, p, start, target, rules, k)[j] == Robbed(vs[j], rules)
    ensures !(j < k && Overtaken(vs[j].position, start, target)) ==>
              OvertakeViews(vs, p, start, target, rules, k)[j] == vs[j]
  {
    if j >= k {
      OvertakeUntouched(vs, p, start, target, rules, k, j);
    } else {
      OvertakeReached(vs, p, start, target, rules, k, j);
    }
  }

  /** A seat the pass has reached keeps what the pass made of it. */
  lemma {:induction false} OvertakeReached(vs: seq<PlayerView>, p: nat, start: int, target: int,
                                           rules: seq<HouseRule>, k: nat, j: nat)
    requires p < |vs| && j < k <= |vs| && j != p
    ensures OvertakeViews(vs, p, start, target, rules, k)[j] ==
              if Overtaken(vs[j].position, start, target) then Robbed(vs[j], rules) else vs[j]
  {
    if j == k - 1 {
      OvertakeSeat(vs, p, start, target, rules, j);
    } else {
      OvertakeReached(vs, p, start, target, rules, k - 1, j);
      OvertakeStepOther(OvertakeViews(vs, p, start, target, rules, k - 1), p, k - 1, start, target, rules, j);
    }
  }

  /** The pass robs seat `j`, if the mover passed it, when it reaches it. */
  lemma OvertakeSeat(vs: seq<PlayerView>, p: nat, start: int, target: int, rules: seq<HouseRule>, j: nat)
    requires p < |vs| && j < |vs| && j != p
    ensures OvertakeViews(vs, p, start, target, rules, j + 1)[j] ==
              if Overtaken(vs[j].position, start, target) then Robbed(vs[j], rules) else vs[j]
  {
    var r := OvertakeViews(vs, p, start, target, rules, j);
    OvertakeUntouched(vs, p, start, target, rules, j, j);
    OvertakeStepOther(r, p, j, start, target, rules, j);
  }

  /** The seats the pass has not reached yet are as they were. */
  lemma {:induction false} OvertakeUntouched(vs: seq<PlayerView>, p: nat, start: int, target: int,
                                             rules: seq<HouseRule>, k: nat, j: nat)
    requires p < |vs| && k <= j < |vs| && j != p
    ensures OvertakeViews(vs, p, start, target, rules, k)[j] == vs[j]
  {
    if k > 0 {
      OvertakeUntouched(vs, p, start, target, rules, k - 1, j);
      OvertakeStepOther(OvertakeViews(vs, p, start, target, rules, k - 1), p, k - 1, start, target, rules, j);
    }
  }

  /** One seat of the overtake pass: seat `j`, if passed, is robbed, and no other seat `i` but the mover's changes. */
  lemma OvertakeStepOther(r: seq<PlayerView>, p: nat, j: nat, start: int, target: int, rules: seq<HouseRule>, i: nat)
    requires p < |r| && j < |r| && i < |r| && i != p
    ensures i == j && Overtaken(r[j].position, start, target) ==>
              OvertakeStep(r, p, j, start, target, rules)[i] == Robbed(r[j], rules)
    ensures !(i == j && Overtaken(r[j].position, start, target)) ==>
              OvertakeStep(r, p, j, start, target, rules)[i] == r[i]
  {
    if j != p && Overtaken(r[j].position, start, target) {
      StealRoundMoves(r[j].coins, r[p].coins, rules);
    }
  }

  /** The mover keeps everything but their balance. */
  lemma {:induction false} OvertakeMover(vs: seq<PlayerView>, p: nat, start: int, target: int,
                                         rules: seq<HouseRule>, k: nat)
    requires p < |vs| && k <= |vs|
    ensures var r := OvertakeViews(vs, p, start, target, rules, k);
            r[p] == vs[p].(coins := r[p].coins)
  {
    if k > 0 {
      OvertakeMover(vs, p, start, target, rules, k - 1);
      OvertakeStepMover(OvertakeViews(vs, p, start, target, rules, k - 1), p, k - 1, start, target, rules);
    }
  }

  /** One seat of the overtake pass changes the mover's balance only, and with non-negative rule values never lowers it. */
  lemma OvertakeStepMover(r: seq<PlayerView>, p: nat, j: nat, start: int, target: int, rules: seq<HouseRule>)
    requires p < |r| && j < |r|
    ensures var r' := OvertakeStep(r, p, j, start, target, rules);
            r'[p] == r[p].(coins := r'[p].coins)
    ensures (forall n :: 0 <= n < |rules| ==> rules[n].value >= 0) ==>
              OvertakeStep(r, p, j, start, target, rules)[p].coins >= r[p].coins
  {
    if j != p && Overtaken(r[j].position, start, target) {
      StealRoundMoves(r[j].coins, r[p].coins, rules);
    }
  }

  /** With non-negative rule values, the mover never loses by overtaking. */
  lemma {:induction false} OvertakeMoverGains(vs: seq<PlayerView>, p: nat, start: int, target: int,
                                              rules: seq<HouseRule>, k: nat)
    requires p < |vs| && k <= |vs|
    requires forall n :: 0 <= n < |rules| ==> rules[n].value >= 0
    ensures OvertakeViews(vs, p, start, target, rules, k)[p].coins >= vs[p].coins
  {
    if k > 0 {
      OvertakeMoverGains(vs, p, start, target, rules, k - 1);
      OvertakeStepMover(OvertakeViews(vs, p, start, target, rules, k - 1), p, k - 1, start, target, rules);
    }
  }

  /** With non-negative rule values, one seat of the overtake pass keeps the total of all balances fixed. */
  lemma OvertakeStepConserves(r: seq<PlayerView>, p: nat, j: nat, start: int, target: int, rules: seq<HouseRule>)
    requires p < |r| && j < |r|
    requires forall n :: 0 <= n < |rules| ==> rules[n].value >= 0
    ensures TotalCoins(OvertakeStep(r, p, j, start, target, rules)) == TotalCoins(r)
  {
    if j != p && Overtaken(r[j].position, start, target) {
      var vm := StealRound(r[j].coins, r[p].coins, rules);
      StealRoundMoves(r[j].coins, r[p].coins, rules);
      var r1 := r[j := r[j].(coins := vm.victim)];
      TotalCoinsUpdate(r, j, r[j].(coins := vm.victim));
      assert r1[p] == r[p];
      TotalCoinsUpdate(r1, p, r1[p].(coins := vm.mover));
    }
  }

  /** With non-negative rule values, overtaking keeps the total of all balances fixed. */
  lemma {:induction false} OvertakeConserves(vs: seq<PlayerView>, p: nat, start: int, target: int,
                                             rules: seq<HouseRule>, k: nat)
    requires p < |vs| && k <= |vs|
    requires forall n :: 0 <= n < |rules| ==> rules[n].value >= 0
    ensures TotalCoins(OvertakeViews(vs, p, start, target, rules, k)) == TotalCoins(vs)
  {
    if k > 0 {
      var r := OvertakeViews(vs, p, start, target, rules, k - 1);
      OvertakeConserves(vs, p, start, target, rules, k - 1);
      OvertakeStepConserves(r, p, k - 1, start, target, rules);
      assert OvertakeViews(vs, p, start, target, rules, k) == OvertakeStep(r, p, k - 1, start, target, rules);
    }
  }

  /** How much a levy asks of a payer holding `coins`: a fixed sum, or up to a limit (Python's `min(coins, limit)`). */
  datatype Levy = Fixed(amount: int) | UpTo(limit: int)

  function LevyAmount(levy: Levy, coins: nat): int
  {
    match levy
    case Fixed(a) => a
    case UpTo(n) => if coins < n then coins else n
  }

  /** A levy that never asks for a negative sum. */
  predicate NonNegative(levy: Levy)
  {
    match levy
    case Fixed(a) => a >= 0
    case UpTo(n) => n >= 0
  }

  /**
   * `from` pays the levy to `to` (`if payer.pay(amount): payee.add_coins(amount)`):
   * a payer who cannot afford it pays nothing and nobody gains.
   */
  function Transfer(vs: seq<PlayerView>, from: nat, to: nat, levy: Levy): (r: seq<PlayerView>)
    requires from < |vs| && to < |vs|
    ensures |r| == |vs|
  {
    var amount := LevyAmount(levy, vs[from].coins);
    if vs[from].coins >= amount then
      var r := vs[from := vs[from].(coins := PaidCoins(vs[from].coins, amount))];
      r[to := r[to].(coins := AddedCoins(r[to].coins, amount))]
    else
      vs
  }

  /** Seat `j` in a levy round: it pays the mover `p` (`toMover`) or is paid by them; the mover's own seat is skipped. */
  function LevyStep(r: seq<PlayerView>, p: nat, j: nat, levy: Levy, toMover: bool): (r': seq<PlayerView>)
    requires p < |r| && j < |r|
    ensures |r'| == |r|
  {
    if j == p then r else if toMover then Transfer(r, j, p, levy) else Transfer(r, p, j, levy)
  }

  /** The first `k` seats, in order, settle the levy with the mover `p`. */
  function Levies(vs: seq<PlayerView>, p: nat, levy: Levy, toMover: bool, k: nat): (r: seq<PlayerView>)
    requires p < |vs| && k <= |vs|
    ensures |r| == |vs|
  {
    if k == 0 then vs else LevyStep(Levies(vs, p, levy, toMover, k - 1), p, k - 1, levy, toMover)
  }

  /**
   * Every intermediate table of a levy round, seat by seat: entry `k` is
   * the table once the first `k` seats have settled.
   */
  lemma LevyPlan(vs: seq<PlayerView>, p: nat, levy: Levy, toMover: bool) returns (t: seq<seq<PlayerView>>)
    requires p < |vs|
    ensures |t| == |vs| + 1 && t[0] == vs && t[|vs|] == Levies(vs, p, levy, toMover, |vs|)
    ensures forall k :: 0 <= k < |vs| ==> |t[k]| == |vs| && t[k + 1] == LevyStep(t[k], p, k, levy, toMover)
  {
    t := seq(|vs| + 1, k requires 0 <= k <= |vs| => Levies(vs, p, levy, toMover, k));
  }

  /** A transfer of a non-negative sum keeps the table's total. */
  lemma TransferConserves(vs: seq<PlayerView>, from: nat, to: nat, levy: Levy)
    requires from < |vs| && to < |vs| && from != to
    requires NonNegative(levy)
    ensures TotalCoins(Transfer(vs, from, to, levy)) == TotalCoins(vs)
  {
    var amount := LevyAmount(levy, vs[from].coins);
    if vs[from].coins >= amount {
      var c1 := PaidCoins(vs[from].coins, amount);
      assert c1 == vs[from].coins - amount;
      var r := vs[from := vs[from].(coins := c1)];
      TotalCoinsUpdate(vs, from, vs[from].(coins := c1));
      var c2 := AddedCoins(r[to].coins, amount);
      assert amount >= 0 && c2 == r[to].coins + amount;
      TotalCoinsUpdate(r, to, r[to].(coins := c2));
    }
  }

  /** In a transfer of a non-negative sum the payer does not gain, the payee does not lose, and nobody else is involved. */
  lemma TransferSides(vs: seq<PlayerView>, from: nat, to: nat, levy: Levy)
    requires from < |vs| && to < |vs| && from != to
    requires NonNegative(levy)
    ensures Transfer(vs, from, to, levy)[from].coins <= vs[from].coins
    ensures Transfer(vs, from, to, levy)[to].coins >= vs[to].coins
    ensures forall k :: 0 <= k < |vs| && k != from && k != to ==> Transfer(vs, from, to, levy)[k] == vs[k]
  {
  }

  /** One seat's settlement keeps the total. */
  lemma LevyStepConserves(r: seq<PlayerView>, p: nat, j: nat, levy: Levy, toMover: bool)
    requires p < |r| && j < |r|
    requires NonNegative(levy)
    ensures TotalCoins(LevyStep(r, p, j, levy, toMover)) == TotalCoins(r)
  {
    if j != p {
      if toMover {
        TransferConserves(r, j, p, levy);
      } else {
        TransferConserves(r, p, j, levy);
      }
    }
  }

  /** A round of non-negative levies moves coins between the mover and the others only: the total is kept. */
  lemma LeviesConserve(vs: seq<PlayerView>, p: nat, levy: Levy, toMover: bool)
    requires p < |vs|
    requires NonNegative(levy)
    ensures TotalCoins(Levies(vs, p, levy, toMover, |vs|)) == TotalCoins(vs)
  {
    var t: seq<seq<PlayerView>> := LevyPlan(vs, p, levy, toMover);
    var i := 0;
    while i < |vs|
      invariant 0 <= i <= |vs| && TotalCoins(t[i]) == TotalCoins(vs)
    {
      LevyStepConserves(t[i], p, i, levy, toMover);
      i := i + 1;
    }
  }

  /** One seat's settlement moves coins only between that seat and the mover, in the levy's direction. */
  lemma LevyStepSides(r: seq<PlayerView>, p: nat, j: nat, levy: Levy, toMover: bool)
    requires p < |r| && j < |r|
    requires NonNegative(levy)
    ensures var r' := LevyStep(r, p, j, levy, toMover);
            toMover ==> r'[p].coins >= r[p].coins && forall k :: 0 <= k < |r| && k != p ==> r'[k].coins <= r[k].coins
    ensures var r' := LevyStep(r, p, j, levy, toMover);
            !toMover ==> r'[p].coins <= r[p].coins && forall k :: 0 <= k < |r| && k != p ==> r'[k].coins >= r[k].coins
  {
    if j != p {
      if toMover {
        TransferSides(r, j, p, levy);
      } else {
        TransferSides(r, p, j, levy);
      }
    }
  }

  /**
   * Coins flow one way in a round of non-negative levies: when the others pay
   * (`toMover`) the mover never loses and nobody else gains; when the mover
   * pays, the reverse.
   */
  lemma LeviesDirection(vs: seq<PlayerView>, p: nat, levy: Levy, toMover: bool)
    requires p < |vs|
    requires NonNegative(levy)
    ensures var r := Levies(vs, p, levy, toMover, |vs|);
            toMover ==> r[p].coins >= vs[p].coins && forall j :: 0 <= j < |vs| && j != p ==> r[j].coins <= vs[j].coins
    ensures var r := Levies(vs, p, levy, toMover, |vs|);
            !toMover ==> r[p].coins <= vs[p].coins && forall j :: 0 <= j < |vs| && j != p ==> r[j].coins >= vs[j].coins
  {
    var t: seq<seq<PlayerView>> := LevyPlan(vs, p, levy, toMover);
    var i := 0;
    while i < |vs|
      invariant 0 <= i <= |vs| && |t[i]| == |vs|
      invariant toMover ==> t[i][p].coins >= vs[p].coins && forall j :: 0 <= j < |vs| && j != p ==> t[i][j].coins <= vs[j].coins
      invariant !toMover ==> t[i][p].coins <= vs[p].coins && forall j :: 0 <= j < |vs| && j != p ==> t[i][j].coins >= vs[j].coins
    {
      LevyStepSides(t[i], p, i, levy, toMover);
      i := i + 1;
    }
  }

  /** Table `b` is table `a` with, at most, other balances. */
  ghost predicate SameButCoins(a: seq<PlayerView>, b: seq<PlayerView>)
  {
    |a| == |b| && forall j :: 0 <= j < |a| ==> b[j] == a[j].(coins := b[j].coins)
  }

  /** A levy round only moves coins. */
  lemma LeviesOnlyCoins(vs: seq<PlayerView>, p: nat, levy: Levy, toMover: bool)
    requires p < |vs|
    ensures SameButCoins(vs, Levies(vs, p, levy, toMover, |vs|))
  {
    var t: seq<seq<PlayerView>> := LevyPlan(vs, p, levy, toMover);
    var i := 0;
    while i < |vs|
      invariant 0 <= i <= |vs| && SameButCoins(vs, t[i])
    {
      LevyStepOnlyCoins(t[i], p, i, levy, toMover);
      SameButCoinsTrans(vs, t[i], t[i + 1]);
      i := i + 1;
    }
  }

  /** One seat's settlement only moves coins. */
  lemma LevyStepOnlyCoins(r: seq<PlayerView>, p: nat, j: nat, levy: Levy, toMover: bool)
    requires p < |r| && j < |r|
    ensures SameButCoins(r, LevyStep(r, p, j, levy, toMover))
  {
    if j != p {
      if toMover {
        TransferOnlyCoins(r, j, p, levy);
      } else {
        TransferOnlyCoins(r, p, j, levy);
      }
    }
  }

  /** A transfer only moves coins. */
  lemma TransferOnlyCoins(vs: seq<PlayerView>, from: nat, to: nat, levy: Levy)
    requires from < |vs| && to < |vs|
    ensures SameButCoins(vs, Transfer(vs, from, to, levy))
  {
    var amount := LevyAmount(levy, vs[from].coins);
    if vs[from].coins >= amount {
      var r := WithCoins(vs, from, PaidCoins(vs[from].coins, amount));
      WithCoinsOnlyCoins(vs, from, PaidCoins(vs[from].coins, amount));
      WithCoinsOnlyCoins(r, to, AddedCoins(r[to].coins, amount));
      SameButCoinsTrans(vs, r, WithCoins(r, to, AddedCoins(r[to].coins, amount)));
    }
  }

  lemma WithCoinsOnlyCoins(vs: seq<PlayerView>, p: nat, c: nat)
    requires p < |vs|
    ensures SameButCoins(vs, WithCoins(vs, p, c))
  {
  }

  lemma SameButCoinsTrans(a: seq<PlayerView>, b: seq<PlayerView>, c: seq<PlayerView>)
    requires SameButCoins(a, b) && SameButCoins(b, c)
    ensures SameButCoins(a, c)
  {
  }

  /**
   * The table after one Ta-Dam rule for player `p`, who landed on a cell of
   * `kind`, when the rule does not move them: on a red cell the tax rule
   * has `p` pay every other player 4 coins at a table of two and 2
   * otherwise, each while they can; on a green cell the income rule pays
   * `p` its value; no other rule touches the table.
   */
  function GlobalTable(vs: seq<PlayerView>, p: nat, rule: HouseRule, kind: CellType): (r: seq<PlayerView>)
    requires p < |vs|
    ensures |r| == |vs|
  {
    if kind == Red && rule.effect == RuleRedTaxAll then Levies(vs, p, Fixed(if |vs| == 2 then 4 else 2), false, |vs|)
    else if kind == Green && rule.effect == RuleGreenIncome then WithCoins(vs, p, AddedCoins(vs[p].coins, rule.value))
    else vs
  }

  /** The table after every rule of the queue `rules`, oldest first (see GlobalTable). */
  function GlobalTables(vs: seq<PlayerView>, p: nat, rules: seq<HouseRule>, kind: CellType): (r: seq<PlayerView>)
    requires p < |vs|
    ensures |r| == |vs|
    decreases |rules|
  {
    if |rules| == 0 then vs
    else GlobalTable(GlobalTables(vs, p, rules[..|rules| - 1], kind), p, rules[|rules| - 1], kind)
  }

  /** The rules of a landing only change balances: positions, hands, flags and used cards stay. */
  lemma {:induction false} GlobalTablesOnlyCoins(vs: seq<PlayerView>, p: nat, rules: seq<HouseRule>, kind: CellType)
    requires p < |vs|
    ensures SameButCoins(vs, GlobalTables(vs, p, rules, kind))
    decreases |rules|
  {
    if |rules| > 0 {
      var u := GlobalTables(vs, p, rules[..|rules| - 1], kind);
      GlobalTablesOnlyCoins(vs, p, rules[..|rules| - 1], kind);
      if kind == Red && rules[|rules| - 1].effect == RuleRedTaxAll {
        LeviesOnlyCoins(u, p, Fixed(if |u| == 2 then 4 else 2), false);
      }
    }
  }

  /** Off a green cell, where no rule pays income, the rules of a landing keep the table's total: the red tax only moves coins. */
  lemma {:induction false} GlobalTablesConserve(vs: seq<PlayerView>, p: nat, rules: seq<HouseRule>, kind: CellType)
    requires p < |vs| && kind != Green
    ensures TotalCoins(GlobalTables(vs, p, rules, kind)) == TotalCoins(vs)
    decreases |rules|
  {
    if |rules| > 0 {
      var u := GlobalTables(vs, p, rules[..|rules| - 1], kind);
      GlobalTablesConserve(vs, p, rules[..|rules| - 1], kind);
      if kind == Red && rules[|rules| - 1].effect == RuleRedTaxAll {
        LeviesConserve(u, p, Fixed(if |u| == 2 then 4 else 2), false);
      }
    }
  }

  /** One more rule of the queue acts on the table. */
  lemma GlobalTablesStep(vs: seq<PlayerView>, p: nat, rules: seq<HouseRule>, i: nat, kind: CellType)
    requires p < |vs| && i < |rules|
    ensures GlobalTables(vs, p, rules[..i + 1], kind) == GlobalTable(GlobalTables(vs, p, rules[..i], kind), p, rules[i], kind)
  {
    assert rules[..i + 1][..i] == rules[..i];
  }

  /**
   * Coins gained from the passive income cards of a hand on landing on a
   * cell of `kind` (red: "passive_red_income", empty: "passive_empty_income"),
   * card by card in hand order.
   */
  function PassiveIncome(coins: nat, hand: seq<ShopItem>, kind: CellType): nat
    decreases |hand|
  {
    if |hand| == 0 then coins
    else
      var c := PassiveIncome(coins, hand[..|hand| - 1], kind);
      var card := hand[|hand| - 1];
      if card.isPassive && ((card.effect == PassiveRedIncome && kind == Red) ||
                            (card.effect == PassiveEmptyIncome && kind == Empty))
      then AddedCoins(c, card.value) else c
  }

  /** Passive income never costs, as long as the cards pay non-negative sums; off red and empty cells there is none. */
  lemma {:induction false} PassiveIncomeGrows(coins: nat, hand: seq<ShopItem>, kind: CellType)
    ensures kind != Red && kind != Empty ==> PassiveIncome(coins, hand, kind) == coins
    ensures (forall i :: 0 <= i < |hand| ==> hand[i].value >= 0) ==> PassiveIncome(coins, hand, kind) >= coins
    decreases |hand|
  {
    if |hand| > 0 {
      PassiveIncomeGrows(coins, hand[..|hand| - 1], kind);
    }
  }

  /** The mine cell's effect on the players for one roll: a 1 costs player `p` their next turn, a 6 (the game is won) and any other roll pays them 10 coins. */
  function MineResult(vs: seq<PlayerView>, p: nat, roll: int): (r: seq<PlayerView>)
    requires p < |vs|
    ensures |r| == |vs| && forall j :: 0 <= j < |vs| && j != p ==> r[j] == vs[j]
  {
    if roll == 1 then vs[p := vs[p].(skipNextTurn := true)]
    else if roll == 6 then vs
    else vs[p := vs[p].(coins := AddedCoins(vs[p].coins, 10))]
  }

  /** The mine creates money only on a roll from 2 to 5, exactly 10 coins, all for player `p`. */
  lemma MinePays(vs: seq<PlayerView>, p: nat, roll: int)
    requires p < |vs|
    ensures TotalCoins(MineResult(vs, p, roll)) == TotalCoins(vs) + if roll == 1 || roll == 6 then 0 else 10
    ensures MineResult(vs, p, roll)[p].coins == vs[p].coins + if roll == 1 || roll == 6 then 0 else 10
  {
    if roll == 1 {
      TotalCoinsUpdate(vs, p, vs[p].(skipNextTurn := true));
    } else if roll != 6 {
      TotalCoinsUpdate(vs, p, vs[p].(coins := vs[p].coins + 10));
    }
  }

  /** Which roll of a round over "every other player" seat `j` uses when seat `p` sits out. */
  function RollIndex(j: nat, p: nat): nat
    requires j != p
  {
    if j < p then j else j - 1
  }

  /** The tribute a seat holding `coins` owes for `roll`: the smaller of the two. */
  function TributePayment(coins: nat, roll: int): (pay: int)
    ensures pay <= coins && pay <= roll && (pay == coins || pay == roll)
  {
    if coins < roll then coins else roll
  }

  /** Seat `j` pays `min(coins, roll)` of tribute, which joins the `total` collected. */
  function TributeStep(r: seq<PlayerView>, total: int, j: nat, roll: int): (res: (seq<PlayerView>, int))
    requires j < |r|
    ensures |res.0| == |r|
  {
    var payment := TributePayment(r[j].coins, roll);
    (r[j := r[j].(coins := r[j].coins - payment)], total + payment)
  }

  /**
   * A tribute round over the first `k` seats: each seat other than the mover
   * `p` pays `min(coins, roll)` with its own roll; the second component is
   * what has been collected so far.
   */
  function Tributes(vs: seq<PlayerView>, p: nat, rolls: seq<int>, k: nat): (res: (seq<PlayerView>, int))
    requires p < |vs| && k <= |vs| && |rolls| + 1 >= |vs|
    ensures |res.0| == |vs|
  {
    if k == 0 then (vs, 0)
    else
      var (r, total) := Tributes(vs, p, rolls, k - 1);
      var j := k - 1;
      if j == p then (r, total) else TributeStep(r, total, j, rolls[RollIndex(j, p)])
  }

  /** Every other player pays their tribute, then the mover collects the total. */
  function TributeResult(vs: seq<PlayerView>, p: nat, rolls: seq<int>): (r: seq<PlayerView>)
    requires p < |vs| && |rolls| + 1 >= |vs|
    ensures |r| == |vs|
  {
    var (r, total) := Tributes(vs, p, rolls, |vs|);
    r[p := r[p].(coins := AddedCoins(r[p].coins, total))]
  }

  /** One seat's tribute with a non-negative roll moves coins from that seat into the collection and leaves the mover alone. */
  lemma TributeStepConserves(r: seq<PlayerView>, total: int, j: nat, roll: int, p: nat)
    requires j < |r| && p < |r| && j != p && roll >= 0
    ensures TributeStep(r, total, j, roll).0[p] == r[p]
    ensures TributeStep(r, total, j, roll).1 >= total
    ensures TotalCoins(TributeStep(r, total, j, roll).0) + TributeStep(r, total, j, roll).1 == TotalCoins(r) + total
  {
    TotalCoinsUpdate(r, j, r[j].(coins := r[j].coins - TributePayment(r[j].coins, roll)));
  }

  /** Midway through a tribute round the mover is untouched and the coins collected plus those left add up to the start. */
  lemma {:induction false} TributesConserve(vs: seq<PlayerView>, p: nat, rolls: seq<int>, k: nat)
    requires p < |vs| && k <= |vs| && |rolls| + 1 >= |vs|
    requires forall m :: 0 <= m < |rolls| ==> rolls[m] >= 0
    ensures var (r, total) := Tributes(vs, p, rolls, k);
            r[p] == vs[p] && total >= 0 && TotalCoins(r) + total == TotalCoins(vs)
  {
    if k > 0 {
      TributesConserve(vs, p, rolls, k - 1);
      TributeNextConserves(vs, p, rolls, k);
    }
  }

  /** Seat `k - 1` paying its tribute after the first `k - 1` leaves the mover alone and moves coins into the collection. */
  lemma TributeNextConserves(vs: seq<PlayerView>, p: nat, rolls: seq<int>, k: nat)
    requires p < |vs| && 0 < k <= |vs| && |rolls| + 1 >= |vs|
    requires forall m :: 0 <= m < |rolls| ==> rolls[m] >= 0
    ensures var (r, total) := Tributes(vs, p, rolls, k - 1);
            var (r', total') := Tributes(vs, p, rolls, k);
            r'[p] == r[p] && total' >= total && TotalCoins(r') + total' == TotalCoins(r) + total
  {
    var prev := Tributes(vs, p, rolls, k - 1);
    var j := k - 1;
    if j != p {
      TributeStepConserves(prev.0, prev.1, j, rolls[RollIndex(j, p)], p);
    }
  }

  /** With non-negative rolls, tribute only moves coins: the table's total is unchanged and the mover does not lose. */
  lemma TributeConserves(vs: seq<PlayerView>, p: nat, rolls: seq<int>)
    requires p < |vs| && |rolls| + 1 >= |vs|
    requires forall m :: 0 <= m < |rolls| ==> rolls[m] >= 0
    ensures TotalCoins(TributeResult(vs, p, rolls)) == TotalCoins(vs)
    ensures TributeResult(vs, p, rolls)[p].coins >= vs[p].coins
  {
    TributesConserve(vs, p, rolls, |vs|);
    var (r, total) := Tributes(vs, p, rolls, |vs|);
    TotalCoinsUpdate(r, p, r[p].(coins := AddedCoins(r[p].coins, total)));
  }

  /** The first seat other than `p`, from seat `k` on, whose player stands on `p`'s cell. */
  function ColliderFrom(vs: seq<PlayerView>, p: nat, k: nat): (c: Option<nat>)
    requires p < |vs| && k <= |vs|
    ensures c.Some? ==> k <= c.value < |vs| && c.value != p && vs[c.value].position == vs[p].position &&
                        forall m :: k <= m < c.value && m != p ==> vs[m].position != vs[p].position
    ensures c.None? ==> forall m :: k <= m < |vs| && m != p ==> vs[m].position != vs[p].position
    decreases |vs| - k
  {
    if k == |vs| then None
    else if k != p && vs[k].position == vs[p].position then Some(k)
    else ColliderFrom(vs, p, k + 1)
  }

  /** The first other player standing on `p`'s cell, if any (the collision-duel opponent). */
  function Collider(vs: seq<PlayerView>, p: nat): (c: Option<nat>)
    requires p < |vs|
    ensures c.Some? ==> c.value < |vs| && c.value != p && vs[c.value].position == vs[p].position &&
                        forall m :: 0 <= m < c.value && m != p ==> vs[m].position != vs[p].position
    ensures c.None? ==> forall m :: 0 <= m < |vs| && m != p ==> vs[m].position != vs[p].position
  {
    ColliderFrom(vs, p, 0)
  }

  // ---------------------------------------------------------------------
  // Chest effects on the whole table
  // ---------------------------------------------------------------------

  /** The bank pays `amount` (`add_coins`) to every player but `p`. */
  function BankPaysOthers(vs: seq<PlayerView>, p: nat, amount: int): (r: seq<PlayerView>)
    ensures |r| == |vs|
  {
    seq(|vs|, j requires 0 <= j < |vs| => if j == p then vs[j] else vs[j].(coins := AddedCoins(vs[j].coins, amount)))
  }

  /** Every player pays `amount` to the bank, each one atomically (`pay`). */
  function AllPay(vs: seq<PlayerView>, amount: int): (r: seq<PlayerView>)
    ensures |r| == |vs|
    ensures forall j :: 0 <= j < |vs| ==> r[j].coins == vs[j].coins || r[j].coins == vs[j].coins - amount
  {
    seq(|vs|, j requires 0 <= j < |vs| => vs[j].(coins := PaidCoins(vs[j].coins, amount)))
  }

  /**
   * Every intermediate table of an all-pay round: entry `k` is the table
   * once the first `k` players have paid.
   */
  ghost method AllPayPlan(vs: seq<PlayerView>, amount: int) returns (t: seq<seq<PlayerView>>)
    ensures |t| == |vs| + 1 && t[0] == vs && t[|vs|] == AllPay(vs, amount)
    ensures forall k :: 0 <= k < |vs| ==>
              |t[k]| == |vs| && t[k + 1] == t[k][k := t[k][k].(coins := PaidCoins(t[k][k].coins, amount))]
  {
    t := seq(|vs| + 1, k requires 0 <= k <= |vs| => AllPay(vs[..k], amount) + vs[k..]);
    forall k | 0 <= k < |vs|
      ensures |t[k]| == |vs| && t[k + 1] == t[k][k := t[k][k].(coins := PaidCoins(t[k][k].coins, amount))]
    {
      assert t[k][k] == vs[k..][0];
    }
    assert vs[..|vs|] == vs;
  }

  /** A non-negative bank payment to everybody but `p` adds exactly `amount` per paid player to the table. */
  lemma {:induction false} BankPaysOthersTotal(vs: seq<PlayerView>, p: nat, amount: int)
    requires amount >= 0
    ensures TotalCoins(BankPaysOthers(vs, p, amount)) == TotalCoins(vs) + amount * |Others(|vs|, p)|
    decreases |vs|
  {
    if |vs| > 0 {
      var n := |vs| - 1;
      var r := BankPaysOthers(vs, p, amount);
      assert r[..n] == BankPaysOthers(vs[..n], p, amount);
      BankPaysOthersTotal(vs[..n], p, amount);
      assert TotalCoins(r) == TotalCoins(r[..n]) + r[n].coins;
      assert TotalCoins(vs) == TotalCoins(vs[..n]) + vs[n].coins;
      var paid := if n == p then 0 else 1;
      assert |Others(|vs|, p)| == |Others(n, p)| + paid;
      assert r[n].coins == vs[n].coins + amount * paid;
      SumsAddUp(TotalCoins(vs[..n]), TotalCoins(r[..n]), vs[n].coins, r[n].coins, amount, |Others(n, p)|, paid);
    }
  }

  /** `amount` on each of k items and then on `paid` more is `amount` on each of k + paid. */
  lemma SumsAddUp(before: int, after: int, c: int, c': int, amount: int, k: nat, paid: nat)
    requires after == before + amount * k && c' == c + amount * paid
    ensures after + c' == (before + c) + amount * (k + paid)
  {
    assert amount * (k + paid) == amount * k + amount * paid;
  }

  /**
   * A non-negative charge to everybody takes between nothing and `amount`
   * from each player, so the table loses at most `amount` per player.
   */
  lemma {:induction false} AllPayTotal(vs: seq<PlayerView>, amount: int)
    requires amount >= 0
    ensures TotalCoins(vs) - amount * |vs| <= TotalCoins(AllPay(vs, amount)) <= TotalCoins(vs)
    decreases |vs|
  {
    if |vs| > 0 {
      var n := |vs| - 1;
      var r := AllPay(vs, amount);
      assert r[..n] == AllPay(vs[..n], amount);
      AllPayTotal(vs[..n], amount);
      assert TotalCoins(r) == TotalCoins(r[..n]) + r[n].coins;
      assert TotalCoins(vs) == TotalCoins(vs[..n]) + vs[n].coins;
      BoundsAddUp(TotalCoins(vs[..n]), TotalCoins(r[..n]), vs[n].coins, r[n].coins, amount, n);
    }
  }

  /** Losing at most `amount` on each of n items and then on one more loses at most `amount` on each of n + 1. */
  lemma BoundsAddUp(before: int, after: int, c: int, c': int, amount: int, n: nat)
    requires before - amount * n <= after <= before && c - amount <= c' <= c
    ensures (before + c) - amount * (n + 1) <= after + c' <= before + c
  {
    assert amount * (n + 1) == amount * n + amount;
  }

  /** The other players standing ahead of `p`, in seating order (the "leader" targets). */
  function Leaders(vs: seq<PlayerView>, p: nat, k: nat): (r: seq<nat>)
    requires p < |vs| && k <= |vs|
    ensures forall j: nat :: j in r <==> j < k && j != p && vs[j].position > vs[p].position
    ensures Increasing(r)
  {
    if k == 0 then []
    else if k - 1 != p && vs[k - 1].position > vs[p].position then
      var r := Leaders(vs, p, k - 1);
      assert forall n :: 0 <= n < |r| ==> r[n] in r;
      r + [k - 1]
    else Leaders(vs, p, k - 1)
  }

  // ---------------------------------------------------------------------
  // Seats
  // ---------------------------------------------------------------------

  /** The seats of a table of `n` other than `p`, in seating order ("every other player"). */
  function Others(n: nat, p: nat): (r: seq<nat>)
    ensures forall j: nat :: j in r <==> j < n && j != p
    ensures Increasing(r)
    ensures |r| == if p < n then n - 1 else n
  {
    if n == 0 then []
    else if n - 1 == p then Others(n - 1, p)
    else
      var r := Others(n - 1, p);
      assert forall k :: 0 <= k < |r| ==> r[k] in r;
      r + [n - 1]
  }

  /** Some card in the list carries effect `e` (Python's `any(c.effect_id == e for c in cards)`). */
  predicate AnyWithEffect(cards: seq<Card>, e: EffectId)
  {
    exists k :: 0 <= k < |cards| && !cards[k].EventCard? && cards[k].effect == e
  }

  // ---------------------------------------------------------------------
  // Last place
  // ---------------------------------------------------------------------

  /** The smallest position at the table. */
  function MinPosition(vs: seq<PlayerView>): (m: int)
    requires |vs| > 0
    ensures exists i :: 0 <= i < |vs| && vs[i].position == m
    ensures forall i :: 0 <= i < |vs| ==> m <= vs[i].position
    decreases |vs|
  {
    if |vs| == 1 then vs[0].position
    else
      var m := MinPosition(vs[..|vs| - 1]);
      assert forall i :: 0 <= i < |vs| - 1 ==> vs[..|vs| - 1][i] == vs[i];
      if vs[|vs| - 1].position < m then vs[|vs| - 1].position else m
  }

  /** The seats of the players furthest from the finish, in seating order. */
  function LastPlayers(vs: seq<PlayerView>): seq<nat>
    requires |vs| > 0
  {
    LastAmong(vs, MinPosition(vs), |vs|)
  }

  /** The seats below `k` whose position is `m`, in seating order. */
  function LastAmong(vs: seq<PlayerView>, m: int, k: nat): (r: seq<nat>)
    requires k <= |vs|
    ensures forall i: nat :: i in r <==> i < k && vs[i].position == m
    ensures Increasing(r)
  {
    if k == 0 then []
    else if vs[k - 1].position == m then
      var r := LastAmong(vs, m, k - 1);
      assert forall n :: 0 <= n < |r| ==> r[n] in r;
      r + [k - 1]
    else LastAmong(vs, m, k - 1)
  }

  /**
   * A player is last exactly when nobody is behind them; there is always
   * someone last, and when everybody stands on the same cell everybody is last.
   */
  lemma LastIsMinimum(vs: seq<PlayerView>, i: nat)
    requires i < |vs|
    ensures i in LastPlayers(vs) <==> forall j :: 0 <= j < |vs| ==> vs[i].position <= vs[j].position
    ensures |LastPlayers(vs)| > 0
    ensures (forall j :: 0 <= j < |vs| ==> vs[j].position == vs[i].position) ==>
              forall j :: 0 <= j < |vs| ==> j in LastPlayers(vs)
  {
    var m := MinPosition(vs);
    var w :| 0 <= w < |vs| && vs[w].position == m;
    assert w in LastPlayers(vs);
  }

  // ---------------------------------------------------------------------
  // Usable cards
  // ---------------------------------------------------------------------

  /** Some other player stands 1 to 10 cells ahead of player `p`. */
  predicate OpponentInReach(vs: seq<PlayerView>, p: nat)
    requires p < |vs|
  {
    exists j :: 0 <= j < |vs| && j != p && 0 < vs[j].position - vs[p].position <= 10
  }

  /** Player `p` holds an active card they can still play and pay for now. */
  predicate HasUsableCard(vs: seq<PlayerView>, p: nat)
    requires p < |vs|
  {
    exists i :: 0 <= i < |vs[p].hand| && UsableAt(vs, p, i)
  }

  /** Card `i` of the hand of `p` can be played now (see CardUsable). */
  predicate UsableAt(vs: seq<PlayerView>, p: nat, i: nat)
    requires p < |vs| && i < |vs[p].hand|
  {
    CardUsable(vs[p].hand[i], i, vs[p].usedCardsIndices, vs[p].coins, OpponentInReach(vs, p), |vs| > 1)
  }

  /** One of the first `n` cards of the hand of `p` can be played now. */
  predicate UsableAmong(vs: seq<PlayerView>, p: nat, n: nat)
    requires p < |vs| && n <= |vs[p].hand|
  {
    n > 0 && (UsableAmong(vs, p, n - 1) || UsableAt(vs, p, n - 1))
  }

  /** UsableAmong over the whole hand is HasUsableCard, card by card. */
  lemma {:induction false} UsableAmongAll(vs: seq<PlayerView>, p: nat, n: nat)
    requires p < |vs| && n <= |vs[p].hand|
    ensures UsableAmong(vs, p, n) <==> exists i :: 0 <= i < n && UsableAt(vs, p, i)
  {
    if n > 0 {
      UsableAmongAll(vs, p, n - 1);
    }
  }

  /**
   * Card `i` of a hand can be played now: it is active, not used this turn,
   * affordable, and the attacks have somebody to hit.
   */
  predicate CardUsable(card: ShopItem, i: int, used: set<int>, coins: int, inReach: bool, hasOpponents: bool)
  {
    && !card.isPassive
    && i !in used
    && coins >= card.useCost
    && (if card.effect == AttackHook || card.effect == MoveHarpoon then inReach
        else if card.effect == AttackGrenade || card.effect == AttackVoodoo || card.effect == AttackHandFate
        then hasOpponents
        else true)
  }

  // ---------------------------------------------------------------------
  // Chest-card and item effects
  // ---------------------------------------------------------------------

  /** The effects the code marks as not implemented. */
  predicate Unimplemented(e: EffectId)
  {
    e.GiveDoubleTurnEnemy? || e.PayCoinsMoveFlexible? || e.PlaceMines? || e.TaxShopCards? || e.AllDiscardToOneShopCard?
    || e.Draw2Keep1Free? || e.PayCoinsMoveOthersBack? || e.SkipTurnMutual? || e.ExtraTurnPayCoins? || e.RuleRedChoice?
  }

  /** The effects aimed at one other player (who is chosen when there is more than one candidate). */
  predicate Targeted(e: EffectId)
  {
    e.StealCoinsTarget? || e.ForceEnemyDrawBad? || e.DiscardEnemyShopCard? || e.RollPushEnemy? || e.Give5ToTarget?
    || e.Give10ToTarget? || e.ForceEnemyLoseCoins? || e.StealShopCardLeader?
  }

  /** The effects that only move coins. */
  predicate CoinsOnly(e: EffectId)
  {
    e.GainCoins? || e.LoseCoins? || e.NoEffect? || e.PayAllOthersBank? || e.StealCoinsFromAll?
    || e.AllLoseCoinsGlobal? || e.Steal2FromAll?
  }

  /** The moving effects that only send player `s` backwards (or leave them where they are). */
  predicate Retreating(e: EffectId)
  {
    e.MoveSelfBack? || e.MoveBackToRedOr3? || e.DiscardShopOrRed? || e.RollLoseCoinsOrMoveBack?
  }

  /** The effects that move somebody (and maybe move coins too). */
  predicate Moving(e: EffectId)
  {
    e.MoveSelfForward? || e.MoveSelfBack? || e.MoveForwardGainCoins? || e.MoveNearestGreen? || e.MoveBackToRedOr3?
    || e.OthersMoveForward? || e.OthersGainCoinsMove? || e.DiscardShopOrRed? || e.RollLoseCoinsOrMoveBack? || e.RollGambleMoneyMove?
  }

  /** The effects `apply_effect` has a branch for; any other id does nothing there. */
  predicate HasEffectBranch(e: EffectId)
  {
    CoinsOnly(e) || Unimplemented(e) || Targeted(e) || Moving(e) || e == Draw2Bad || e == RuleLastPlayerIncome
  }

  /**
   * What a coins-only effect drawn by player `s` does to the table: `s`
   * gains or pays (atomically) `value`, the bank pays everybody else, `s`
   * levies a fixed sum or up to `value` on everybody else, or everybody pays.
   */
  function CoinEffect(e: EffectId, vs: seq<PlayerView>, s: nat, value: int): (r: seq<PlayerView>)
    requires s < |vs|
    ensures |r| == |vs|
  {
    if e.GainCoins? then vs[s := vs[s].(coins := AddedCoins(vs[s].coins, value))]
    else if e.LoseCoins? then vs[s := vs[s].(coins := PaidCoins(vs[s].coins, value))]
    else if e.PayAllOthersBank? then BankPaysOthers(vs, s, value)
    else if e.StealCoinsFromAll? then Levies(vs, s, Fixed(value), true, |vs|)
    else if e.AllLoseCoinsGlobal? then AllPay(vs, value)
    else if e.Steal2FromAll? then Levies(vs, s, UpTo(value), true, |vs|)
    else vs
  }

  /**
   * Where the money of a coins-only effect (with a non-negative value) comes
   * from: the levies only move coins between players, the bank creates
   * `value` for each player it pays, and a charge destroys at most `value`
   * per payer.
   */
  lemma CoinEffectTotals(e: EffectId, vs: seq<PlayerView>, s: nat, value: int)
    requires s < |vs| && value >= 0 && CoinsOnly(e)
    ensures e == GainCoins ==> TotalCoins(CoinEffect(e, vs, s, value)) == TotalCoins(vs) + value
    ensures e == LoseCoins ==>
              TotalCoins(CoinEffect(e, vs, s, value)) == TotalCoins(vs) - (if vs[s].coins >= value then value else 0)
    ensures e == PayAllOthersBank ==> TotalCoins(CoinEffect(e, vs, s, value)) == TotalCoins(vs) + value * (|vs| - 1)
    ensures e.StealCoinsFromAll? || e.Steal2FromAll? || e.NoEffect? ==> TotalCoins(CoinEffect(e, vs, s, value)) == TotalCoins(vs)
    ensures e == AllLoseCoinsGlobal ==>
              TotalCoins(vs) - value * |vs| <= TotalCoins(CoinEffect(e, vs, s, value)) <= TotalCoins(vs)
  {
    var r := CoinEffect(e, vs, s, value);
    if e == GainCoins {
      assert r == vs[s := vs[s].(coins := AddedCoins(vs[s].coins, value))];
      TotalCoinsUpdate(vs, s, r[s]);
    } else if e == LoseCoins {
      assert r == vs[s := vs[s].(coins := PaidCoins(vs[s].coins, value))];
      TotalCoinsUpdate(vs, s, r[s]);
    } else if e == PayAllOthersBank {
      assert r == BankPaysOthers(vs, s, value);
      BankPaysOthersTotal(vs, s, value);
    } else if e == StealCoinsFromAll {
      assert r == Levies(vs, s, Fixed(value), true, |vs|);
      LeviesConserve(vs, s, Fixed(value), true);
    } else if e == Steal2FromAll {
      assert r == Levies(vs, s, UpTo(value), true, |vs|);
      LeviesConserve(vs, s, UpTo(value), true);
    } else if e == AllLoseCoinsGlobal {
      assert r == AllPay(vs, value);
      AllPayTotal(vs, value);
    }
  }

  /**
   * `give_5_to_target` / `give_10_to_target` from `s` to `t`: a value of 10
   * is paid by the bank, any other value by `s`, who gives all they have
   * when they cannot afford it.
   */
  function Gift(vs: seq<PlayerView>, s: nat, t: nat, value: int): (r: seq<PlayerView>)
    requires s < |vs| && t < |vs|
    ensures |r| == |vs|
  {
    if value == 10 then vs[t := vs[t].(coins := AddedCoins(vs[t].coins, value))]
    else Transfer(vs, s, t, UpTo(value))
  }

  /** Only the 10-coin gift creates money: any other gift keeps the table's total. */
  lemma GiftTotal(vs: seq<PlayerView>, s: nat, t: nat, value: int)
    requires s < |vs| && t < |vs| && s != t && value >= 0
    ensures TotalCoins(Gift(vs, s, t, value)) == TotalCoins(vs) + (if value == 10 then 10 else 0)
  {
    if value == 10 {
      TotalCoinsUpdate(vs, t, vs[t].(coins := vs[t].coins + 10));
    } else {
      TransferConserves(vs, s, t, UpTo(value));
    }
  }

  /** Every card in every hand at the table. */
  function AllHands(vs: seq<PlayerView>): multiset<ShopItem>
  {
    if |vs| == 0 then multiset{} else AllHands(vs[..|vs| - 1]) + multiset(vs[|vs| - 1].hand)
  }

  /** Replacing one player swaps their hand in the table's cards. */
  lemma {:induction false} AllHandsUpdate(vs: seq<PlayerView>, i: nat, w: PlayerView)
    requires i < |vs|
    ensures AllHands(vs[i := w]) + multiset(vs[i].hand) == AllHands(vs) + multiset(w.hand)
    decreases |vs|
  {
    var ws := vs[i := w];
    var n := |vs| - 1;
    if i < n {
      assert ws[..n] == vs[..n][i := w];
      assert vs[..n][i] == vs[i] && ws[n] == vs[n];
      AllHandsUpdate(vs[..n], i, w);
      var a, b := AllHands(ws[..n]), AllHands(vs[..n]);
      var mi, mw, mn := multiset(vs[i].hand), multiset(w.hand), multiset(vs[n].hand);
      assert a + mi == b + mw;
      calc {
        AllHands(ws) + mi;
        a + mn + mi;
        (a + mi) + mn;
        (b + mw) + mn;
        b + mn + mw;
        AllHands(vs) + mw;
      }
    } else {
      assert ws[..n] == vs[..n];
    }
  }

  /**
   * Player `to` takes card `idx` of player `from` (`remove_card` then
   * `add_card`); when `to`'s hand is full the card comes back as the second
   * component, for the shop's discard pile.  An index off the hand takes nothing.
   */
  function TakeCard(vs: seq<PlayerView>, from: nat, to: nat, idx: int): (res: (seq<PlayerView>, Option<ShopItem>))
    requires from < |vs| && to < |vs|
    ensures |res.0| == |vs|
  {
    var h := vs[from].hand;
    if 0 <= idx < |h| then
      var card := h[idx];
      var r := vs[from := vs[from].(hand := h[..idx] + h[idx + 1..])];
      if |r[to].hand| < MaxHandSize then (r[to := r[to].(hand := r[to].hand + [card])], None)
      else (r, Some(card))
    else (vs, None)
  }

  /**
   * A taken card is never lost: it ends in the taker's hand or is handed
   * back, and it is card `idx` of the victim.  Taking from oneself always
   * finds room.
   */
  lemma TakeCardKeeps(vs: seq<PlayerView>, from: nat, to: nat, idx: int)
    requires from < |vs| && to < |vs|
    ensures var back := TakeCard(vs, from, to, idx).1;
            AllHands(TakeCard(vs, from, to, idx).0) + (if back.Some? then multiset{back.value} else multiset{}) == AllHands(vs)
    ensures var back := TakeCard(vs, from, to, idx).1;
            back.Some? ==> from != to && 0 <= idx < |vs[from].hand| && back.value == vs[from].hand[idx] &&
                           |vs[to].hand| == MaxHandSize
    ensures !(0 <= idx < |vs[from].hand|) ==> TakeCard(vs, from, to, idx) == (vs, None)
  {
    var h := vs[from].hand;
    if 0 <= idx < |h| {
      var card := h[idx];
      var r := vs[from := vs[from].(hand := h[..idx] + h[idx + 1..])];
      RemovedCard(vs, from, idx);
      assert AllHands(r) + multiset{card} == AllHands(vs);
      if |r[to].hand| < MaxHandSize {
        AddedCard(r, to, card);
      }
    }
  }

  /** A card added to a hand adds one copy of it to the table. */
  lemma AddedCard(vs: seq<PlayerView>, to: nat, card: ShopItem)
    requires to < |vs| && |vs[to].hand| < MaxHandSize
    ensures AllHands(vs[to := vs[to].(hand := vs[to].hand + [card])]) == AllHands(vs) + multiset{card}
  {
    var m := multiset(vs[to].hand);
    var w := vs[to].(hand := vs[to].hand + [card]);
    assert multiset(w.hand) == m + multiset{card};
    AllHandsUpdate(vs, to, w);
    var t, a := AllHands(vs[to := w]), AllHands(vs);
    assert t + m == a + (m + multiset{card});
    forall x
      ensures t[x] == (a + multiset{card})[x]
    {
      assert (t + m)[x] == (a + (m + multiset{card}))[x];
    }
    assert t == a + multiset{card};
  }

  /** Taking card `idx` out of a hand leaves the table one copy of that card short. */
  lemma RemovedCard(vs: seq<PlayerView>, from: nat, idx: int)
    requires from < |vs| && 0 <= idx < |vs[from].hand|
    ensures var h := vs[from].hand;
            AllHands(vs[from := vs[from].(hand := h[..idx] + h[idx + 1..])]) + multiset{h[idx]} == AllHands(vs)
  {
    var h := vs[from].hand;
    var front, back := h[..idx], h[idx + 1..];
    assert h == front + [h[idx]] + back;
    var rest := front + back;
    var mf, mb, mc := multiset(front), multiset(back), multiset{h[idx]};
    assert multiset(h) == mf + mc + mb;
    assert multiset(rest) == mf + mb;
    var w := vs[from].(hand := rest);
    AllHandsUpdate(vs, from, w);
    var t, a := AllHands(vs[from := w]), AllHands(vs);
    assert t + (mf + mc + mb) == a + (mf + mb);
    forall x
      ensures (t + mc)[x] == a[x]
    {
      assert (t + (mf + mc + mb))[x] == (a + (mf + mb))[x];
    }
    assert t + mc == a;
  }

  /**
   * The coins of a last-placed player after the start-of-turn income rules
   * ("rule_last_player_income"), applied in queue order.
   */
  function LastIncome(coins: nat, rules: seq<HouseRule>): nat
    decreases |rules|
  {
    if |rules| == 0 then coins
    else
      var c := LastIncome(coins, rules[..|rules| - 1]);
      var rule := rules[|rules| - 1];
      if rule.effect == RuleLastPlayerIncome then AddedCoins(c, rule.value) else c
  }

  /** Without an income rule nothing is paid; rules paying non-negative sums never cost. */
  lemma {:induction false} LastIncomeGrows(coins: nat, rules: seq<HouseRule>)
    ensures !AnyWithEffect(rules, RuleLastPlayerIncome) ==> LastIncome(coins, rules) == coins
    ensures (forall i :: 0 <= i < |rules| ==> rules[i].value >= 0) ==> LastIncome(coins, rules) >= coins
    decreases |rules|
  {
    if |rules| > 0 {
      var front := rules[..|rules| - 1];
      LastIncomeGrows(coins, front);
      if !AnyWithEffect(rules, RuleLastPlayerIncome) {
        assert !AnyWithEffect(front, RuleLastPlayerIncome) by {
          forall k | 0 <= k < |front| ensures !(!front[k].EventCard? && front[k].effect == RuleLastPlayerIncome) {
            assert front[k] == rules[k];
          }
        }
      }
    }
  }

  // ---------------------------------------------------------------------
  // End-of-turn rules
  // ---------------------------------------------------------------------

  /** How many of the rules carry effect `e`. */
  function CountEffect(rules: seq<HouseRule>, e: EffectId): nat
    decreases |rules|
  {
    if |rules| == 0 then 0 else CountEffect(rules[..|rules| - 1], e) + (if rules[|rules| - 1].effect == e then 1 else 0)
  }

  /** The count is zero exactly when no rule of the queue carries effect `e`. */
  lemma CountEffectNone(rules: seq<HouseRule>, e: EffectId)
    ensures CountEffect(rules, e) == 0 <==> !AnyWithEffect(rules, e)
  {
    if CountEffect(rules, e) == 0 {
      ZeroCountNone(rules, e);
    } else if !AnyWithEffect(rules, e) {
      NoneZeroCount(rules, e);
    }
  }

  lemma {:induction false} ZeroCountNone(rules: seq<HouseRule>, e: EffectId)
    requires CountEffect(rules, e) == 0
    ensures !AnyWithEffect(rules, e)
    decreases |rules|
  {
    if |rules| > 0 {
      var front := rules[..|rules| - 1];
      ZeroCountNone(front, e);
      forall k | 0 <= k < |front|
        ensures rules[k] == front[k]
      {
      }
    }
  }

  lemma {:induction false} NoneZeroCount(rules: seq<HouseRule>, e: EffectId)
    requires !AnyWithEffect(rules, e)
    ensures CountEffect(rules, e) == 0
    decreases |rules|
  {
    if |rules| > 0 {
      var front := rules[..|rules| - 1];
      forall k | 0 <= k < |front|
        ensures rules[k] == front[k]
      {
      }
      NoneZeroCount(front, e);
    }
  }

  /** One more rule of the queue pays its income on top. */
  lemma LastIncomeStep(coins: nat, rules: seq<HouseRule>, i: nat)
    requires i < |rules|
    ensures LastIncome(coins, rules[..i + 1]) ==
              if rules[i].effect == RuleLastPlayerIncome then AddedCoins(LastIncome(coins, rules[..i]), rules[i].value)
              else LastIncome(coins, rules[..i])
  {
    assert rules[..i + 1][..i] == rules[..i];
  }

  /** A queue counting no rule with effect `e` holds none. */
  lemma NoneWithEffect(rules: seq<HouseRule>, i: nat, e: EffectId)
    requires i < |rules| && CountEffect(rules, e) == 0
    ensures rules[i].effect != e
  {
    CountEffectNone(rules, e);
  }

  /** Counting the dice rules of the queue one more rule further. */
  lemma DiceCountStep(rules: seq<HouseRule>, i: nat, n: nat)
    requires i < |rules| && n == CountEffect(rules[..i], RuleLastDiceCoins)
    ensures CountEffect(rules[..i + 1], RuleLastDiceCoins) == n + if rules[i].effect.RuleLastDiceCoins? then 1 else 0
  {
    CountEffectStep(rules, i, RuleLastDiceCoins);
  }

  /** Counting one more rule of the queue. */
  lemma CountEffectStep(rules: seq<HouseRule>, i: nat, e: EffectId)
    requires i < |rules|
    ensures CountEffect(rules[..i + 1], e) == CountEffect(rules[..i], e) + (if rules[i].effect == e then 1 else 0)
  {
    assert rules[..i + 1][..i] == rules[..i];
  }

  // ---------------------------------------------------------------------
  // Shop cards played from the hand
  // ---------------------------------------------------------------------

  /** The effects a card played from the hand can have. */
  predicate ActiveCardEffect(e: EffectId)
  {
    e.AttackGrenade? || e.AttackVoodoo? || e.MoveRocket? || e.AttackHandFate? || e.AttackHook?
    || e.MoveHarpoon?
  }

  /** Seat `t` stands 1 to 10 cells ahead of seat `p`: the reach of the hook and the harpoon. */
  predicate InGrappleReach(vs: seq<PlayerView>, p: nat, t: nat)
    requires p < |vs| && t < |vs|
  {
    0 < vs[t].position - vs[p].position <= 10
  }

  /**
   * The hook (`hook`) puts `t` on the cell of `p`; the harpoon puts `p` on
   * the cell of `t`.  Out of reach nothing happens.
   */
  function Grapple(vs: seq<PlayerView>, p: nat, t: nat, hook: bool): (r: seq<PlayerView>)
    requires p < |vs| && t < |vs|
    ensures |r| == |vs|
  {
    if !InGrappleReach(vs, p, t) then vs
    else if hook then vs[t := vs[t].(position := vs[p].position)]
    else vs[p := vs[p].(position := vs[t].position)]
  }

  /**
   * A grapple in reach brings the two players onto one cell: the hook pulls
   * `t` back to `p`, the harpoon carries `p` forward to `t`.  Nobody else
   * moves, and no coin or card changes hands.
   */
  lemma GrappleMeets(vs: seq<PlayerView>, p: nat, t: nat, hook: bool)
    requires p < |vs| && t < |vs|
    ensures var r := Grapple(vs, p, t, hook);
            InGrappleReach(vs, p, t) ==>
              && r[p].position == r[t].position
              && (hook ==> r[p] == vs[p] && r[t].position < vs[t].position)
              && (!hook ==> r[t] == vs[t] && r[p].position > vs[p].position)
    ensures !InGrappleReach(vs, p, t) ==> Grapple(vs, p, t, hook) == vs
    ensures var r := Grapple(vs, p, t, hook);
            forall j :: 0 <= j < |vs| && j != p && j != t ==> r[j] == vs[j]
    ensures TotalCoins(Grapple(vs, p, t, hook)) == TotalCoins(vs)
    ensures AllHands(Grapple(vs, p, t, hook)) == AllHands(vs)
  {
    if InGrappleReach(vs, p, t) {
      var i := if hook then t else p;
      var w := if hook then vs[t].(position := vs[p].position) else vs[p].(position := vs[t].position);
      assert Grapple(vs, p, t, hook) == vs[i := w];
      TotalCoinsUpdate(vs, i, w);
      AllHandsUpdate(vs, i, w);
      var m := multiset(w.hand);
      assert AllHands(vs[i := w]) + m == AllHands(vs) + m;
      forall x ensures AllHands(vs[i := w])[x] == AllHands(vs)[x] {
        assert (AllHands(vs[i := w]) + m)[x] == (AllHands(vs) + m)[x];
      }
      assert AllHands(vs[i := w]) == AllHands(vs);
    }
  }

  /** Tables whose players hold the same coins, seat by seat, hold the same coins in all. */
  lemma {:induction false} SameCoins(vs: seq<PlayerView>, ws: seq<PlayerView>)
    requires |vs| == |ws| && forall j :: 0 <= j < |vs| ==> vs[j].coins == ws[j].coins
    ensures TotalCoins(ws) == TotalCoins(vs)
    decreases |vs|
  {
    if |vs| > 0 {
      SameCoins(vs[..|vs| - 1], ws[..|ws| - 1]);
    }
  }

  /** Tables whose players hold the same hands, seat by seat, hold the same cards in all. */
  lemma {:induction false} SameHands(vs: seq<PlayerView>, ws: seq<PlayerView>)
    requires |vs| == |ws| && forall j :: 0 <= j < |vs| ==> vs[j].hand == ws[j].hand
    ensures AllHands(ws) == AllHands(vs)
    decreases |vs|
  {
    if |vs| > 0 {
      SameHands(vs[..|vs| - 1], ws[..|ws| - 1]);
    }
  }

  /**
   * The seat, the card and the target a request to play a card names, with
   * negative indices counting from the end; None stands for the IndexError
   * of a seat, a card or a target off its list.
   */
  function CardRequest(vs: seq<PlayerView>, playerIdx: int, cardIdx: int, targetIdx: Option<int>)
    : (r: Option<(nat, ShopItem, Option<nat>)>)
    ensures r.Some? ==> r.value.0 < |vs| && r.value.1 in vs[r.value.0].hand
    ensures r.Some? ==> (r.value.2.Some? <==> targetIdx.Some?) && (r.value.2.Some? ==> r.value.2.value < |vs|)
    ensures r.Some? ==> -|vs| <= playerIdx < |vs| && (targetIdx.Some? ==> -|vs| <= targetIdx.value < |vs|)
    ensures 0 <= playerIdx < |vs| && 0 <= cardIdx < |vs[playerIdx].hand| && targetIdx == None ==>
              r == Some((playerIdx as nat, vs[playerIdx].hand[cardIdx], None))
  {
    var p := PyIndex(playerIdx, |vs|);
    if p.None? then None
    else
      var c := PyIndex(cardIdx, |vs[p.value].hand|);
      if c.None? then None
      else if targetIdx.None? then Some((p.value, vs[p.value].hand[c.value], None))
      else
        var t := PyIndex(targetIdx.value, |vs|);
        if t.None? then None else Some((p.value, vs[p.value].hand[c.value], t))
  }

  // ---------------------------------------------------------------------
  // The shop
  // ---------------------------------------------------------------------

  /**
   * A player after buying `card` for 5 coins: the money is paid
   * atomically, and a buyer whose hand is full pays without getting the card.
   */
  function ShopPurchase(v: PlayerView, card: ShopItem): (w: PlayerView)
    ensures w == v.(coins := w.coins, hand := w.hand)
    ensures w.coins == PaidCoins(v.coins, 5)
    ensures |w.hand| == |v.hand| + 1 <==> v.coins >= 5 && |v.hand| < MaxHandSize
    ensures |w.hand| == |v.hand| + 1 ==> w.hand == v.hand + [card]
    ensures |w.hand| != |v.hand| + 1 ==> w.hand == v.hand
  {
    if v.coins >= 5 && |v.hand| < MaxHandSize then v.(coins := v.coins - 5, hand := v.hand + [card])
    else v.(coins := PaidCoins(v.coins, 5))
  }

  // ---------------------------------------------------------------------
  // The tornado
  // ---------------------------------------------------------------------

  /**
   * A player's answer to the tornado: choice 0 buys them off for 10 coins
   * if they have them; otherwise (or with any other choice) they are
   * carried to `target`.  Exactly one of the two happens.
   */
  function TornadoAnswer(w: PlayerView, choice: int, target: int): (r: PlayerView)
    ensures r == w.(coins := r.coins, position := r.position)
    ensures (r.coins == w.coins - 10 && r.position == w.position) <==> choice == 0 && w.coins >= 10
    ensures !(choice == 0 && w.coins >= 10) ==> r.coins == w.coins && r.position == target
  {
    if choice == 0 && w.coins >= 10 then w.(coins := w.coins - 10) else w.(position := target)
  }

  // ---------------------------------------------------------------------
  // Effects aimed at one player
  // ---------------------------------------------------------------------

  /** The aimed effects that only move coins. */
  predicate TargetCoins(e: EffectId)
  {
    e.StealCoinsTarget? || e.Give5ToTarget? || e.Give10ToTarget? || e.ForceEnemyLoseCoins?
  }

  /**
   * The coins after aimed effect `e` of `s` hits `t`: a theft of up to
   * `value`, a gift (see Gift), or a fine paid to the bank.
   */
  function TargetedCoins(e: EffectId, vs: seq<PlayerView>, s: nat, t: nat, value: int): (r: seq<PlayerView>)
    requires s < |vs| && t < |vs|
    ensures |r| == |vs|
  {
    if e.StealCoinsTarget? then Transfer(vs, t, s, UpTo(value))
    else if e.Give5ToTarget? || e.Give10ToTarget? then Gift(vs, s, t, value)
    else if e.ForceEnemyLoseCoins? then vs[t := vs[t].(coins := PaidCoins(vs[t].coins, value))]
    else vs
  }

  /** A transfer changes only coins, and only those of its two players (who may be the same one). */
  lemma TransferTouches(vs: seq<PlayerView>, from: nat, to: nat, levy: Levy)
    requires from < |vs| && to < |vs|
    ensures var r := Transfer(vs, from, to, levy);
            forall k :: 0 <= k < |vs| ==> r[k] == vs[k].(coins := r[k].coins)
    ensures var r := Transfer(vs, from, to, levy);
            forall k :: 0 <= k < |vs| && k != from && k != to ==> r[k] == vs[k]
  {
    var amount := LevyAmount(levy, vs[from].coins);
    var r := Transfer(vs, from, to, levy);
    if vs[from].coins >= amount {
      var r1 := vs[from := vs[from].(coins := PaidCoins(vs[from].coins, amount))];
      forall k | 0 <= k < |vs|
        ensures r[k] == vs[k].(coins := r[k].coins)
        ensures k != from && k != to ==> r[k] == vs[k]
      {
        assert r[k] == r1[to := r1[to].(coins := AddedCoins(r1[to].coins, amount))][k];
        assert r1[k] == vs[k].(coins := r1[k].coins);
      }
    }
  }

  /** An aimed coin effect touches only the coins, and only those of its two players. */
  lemma TargetedCoinsLocal(e: EffectId, vs: seq<PlayerView>, s: nat, t: nat, value: int)
    requires s < |vs| && t < |vs|
    ensures var r := TargetedCoins(e, vs, s, t, value);
            forall k :: 0 <= k < |vs| ==> r[k] == vs[k].(coins := r[k].coins)
    ensures var r := TargetedCoins(e, vs, s, t, value);
            forall k :: 0 <= k < |vs| && k != s && k != t ==> r[k] == vs[k]
  {
    if e == StealCoinsTarget {
      TransferTouches(vs, t, s, UpTo(value));
    } else if (e.Give5ToTarget? || e.Give10ToTarget?) && value != 10 {
      TransferTouches(vs, s, t, UpTo(value));
    }
  }

  /**
   * A theft and a 5-coin gift keep the table's total, the 10-coin gift adds
   * 10 and a fine removes `value` from a target who can pay it.
   */
  lemma TargetedCoinsTotal(e: EffectId, vs: seq<PlayerView>, s: nat, t: nat, value: int)
    requires s < |vs| && t < |vs| && s != t && value >= 0 && TargetCoins(e)
    ensures var r := TargetedCoins(e, vs, s, t, value);
            e == StealCoinsTarget ==> TotalCoins(r) == TotalCoins(vs) && r[s].coins >= vs[s].coins
    ensures var r := TargetedCoins(e, vs, s, t, value);
            e.Give5ToTarget? || e.Give10ToTarget? ==>
              TotalCoins(r) == TotalCoins(vs) + (if value == 10 then 10 else 0) && r[t].coins >= vs[t].coins
    ensures var r := TargetedCoins(e, vs, s, t, value);
            e == ForceEnemyLoseCoins ==>
              TotalCoins(r) == TotalCoins(vs) - (if vs[t].coins >= value then value else 0)
  {
    var r := TargetedCoins(e, vs, s, t, value);
    if e.StealCoinsTarget? {
      assert r == Transfer(vs, t, s, UpTo(value));
      TransferConserves(vs, t, s, UpTo(value));
      TransferSides(vs, t, s, UpTo(value));
    } else if e.ForceEnemyLoseCoins? {
      assert r == vs[t := vs[t].(coins := PaidCoins(vs[t].coins, value))];
      TotalCoinsUpdate(vs, t, r[t]);
    } else {
      assert r == Gift(vs, s, t, value);
      GiftTotal(vs, s, t, value);
      if value != 10 {
        TransferSides(vs, s, t, UpTo(value));
      }
    }
  }

  /**
   * The candidates for an aimed effect of `s`: the players ahead of `s`
   * for the leader theft, every other player otherwise.
   */
  function Opponents(e: EffectId, vs: seq<PlayerView>, s: nat): (r: seq<nat>)
    requires s < |vs|
    ensures forall j: nat :: j in r <==> j < |vs| && j != s && (e == StealShopCardLeader ==> vs[j].position > vs[s].position)
  {
    if e == StealShopCardLeader then Leaders(vs, s, |vs|) else Others(|vs|, s)
  }

  /**
   * Who an aimed effect of `s` hits at once: nobody when the leader theft
   * finds no leader, the given target, or the only candidate; `None`
   * otherwise (then the choice is put to the player, or nothing happens).
   */
  function AimAt(e: EffectId, vs: seq<PlayerView>, s: nat, target: Option<nat>): (r: Option<nat>)
    requires s < |vs|
  {
    var opps := Opponents(e, vs, s);
    if e == StealShopCardLeader && |opps| == 0 then None
    else if target.Some? then target
    else if |opps| == 1 then Some(opps[0])
    else None
  }

  /**
   * Without a given target an aimed effect hits another player, and the
   * leader theft hits somebody ahead; it hits at once exactly when there is
   * one candidate.  A given target is always hit, except by a leader theft
   * with nobody ahead.
   */
  lemma AimAtOpponent(e: EffectId, vs: seq<PlayerView>, s: nat, target: Option<nat>)
    requires s < |vs|
    ensures target.None? ==> (AimAt(e, vs, s, target).Some? <==> |Opponents(e, vs, s)| == 1)
    ensures target.None? && AimAt(e, vs, s, target).Some? ==>
              var j := AimAt(e, vs, s, target).value;
              j < |vs| && j != s && (e == StealShopCardLeader ==> vs[j].position > vs[s].position)
    ensures target.Some? ==>
              (AimAt(e, vs, s, target) == target <==>
                 e != StealShopCardLeader || exists j :: 0 <= j < |vs| && vs[j].position > vs[s].position)
    ensures e != StealShopCardLeader && target.None? ==> (AimAt(e, vs, s, target).Some? <==> |vs| == 2)
  {
    var opps := Opponents(e, vs, s);
    assert |opps| > 0 ==> opps[0] in opps;
    if e == StealShopCardLeader && exists j :: 0 <= j < |vs| && vs[j].position > vs[s].position {
      var j :| 0 <= j < |vs| && vs[j].position > vs[s].position;
      assert j in opps;
    }
  }
}
