/** The rules of one blackjack round (contracts/src/blackjack.cpp), as
    functions of the persisted row, the session's configuration, the player's
    action and the deck derived from the revealed seed.

    A round moves through the phases
      require_bet -> deal_cards -> require_play -> {deal_one_card | finish}
    driven by three kinds of event: a new game, a player action (bet or play)
    and a revealed random seed.  Only hit and stand are implemented; insure,
    split and double_down are accepted but change nothing.

    card_game::get_weight and prepare_deck are not part of this model: every
    function here takes the weight of a hand as a parameter `w`, and the deck
    as the sequence of labels prepare_deck would return. */
module Round {
  import opened Results
  import opened Cards

  /** The value of a hand (card_game::get_weight). */
  type WeightFn = seq<Card> -> int

  /** game_state of the persisted row. */
  datatype Phase = RequireBet | DealCards | RequirePlay | DealOneCard | Finish

  /** blackjack::outcome: who won, or carry_on while the round goes on. */
  datatype Outcome = CarryOn | Player | Dealer | Draw

  /** The action the platform is asked to wait for (require_action). */
  datatype ActionType = BetAction | PlayAction

  datatype Decision = Hit | Stand | Insure | Split | DoubleDown

  /** Action type codes: 0 places the bet, 1 plays a decision. */
  const BET_TYPE: nat := 0
  const PLAY_TYPE: nat := 1

  /** Decision codes in the order of the switch: hit, stand, insure, split,
      double_down; every other code is invalid. */
  function DecisionOf(code: nat): (d: Option<Decision>)
    ensures d.Some? <==> code < 5
    ensures d == Some(Hit) <==> code == 0
    ensures d == Some(Stand) <==> code == 1
  {
    match code
    case 0 => Some(Hit)
    case 1 => Some(Stand)
    case 2 => Some(Insure)
    case 3 => Some(Split)
    case 4 => Some(DoubleDown)
    case _ => None
  }

  /** What the platform knows of a session: the deposit and the configured
      parameters (each may be absent). */
  datatype Session = Session(deposit: nat, minAnte: Option<nat>, maxAnte: Option<nat>, maxPayout: Option<nat>)

  /** The persisted state row of a session. */
  datatype Row = Row(phase: Phase, playerCards: seq<Card>, dealerCard: Option<Card>)

  /** What a handler asks of the platform, in order. */
  datatype Effect =
    | RequireAction(action: ActionType)
    | RequireRandom
    | UpdateMaxWin(amount: int)
    | SendMessage(cards: seq<nat>)
    | FinishGame(payout: int, cards: seq<nat>)

  /** The result of an event: the new row, the ante of a bet row created by
      the event, and the effects. */
  datatype Step = Step(row: Row, newBet: Option<nat>, effects: seq<Effect>)

  /** The initial deal: the player's two cards and the dealer's one or two. */
  datatype Deal = Deal(outcome: Outcome, player: seq<Card>, dealer: seq<Card>)

  /** The row kept between events: a bet row exists from the bet on, and
      from the first decision on the row holds the player's cards and the
      dealer's open card, all of them real cards. */
  predicate RowValid(row: Row, hasBet: bool)
  {
    && (row.phase == RequireBet <==> !hasBet)
    && (row.phase in {RequirePlay, DealOneCard, Finish} ==> |row.playerCards| >= 2 && row.dealerCard.Some?)
    && (forall c :: c in row.playerCards ==> IsValid(c))
    && (row.dealerCard.Some? ==> IsValid(row.dealerCard.value))
  }

  /** The codes of a sequence of cards, in order. */
  function Values(cards: seq<Card>): (vs: seq<nat>)
  {
    seq(|cards|, i requires 0 <= i < |cards| => cards[i].value)
  }

  /** C++ integer division, which truncates toward zero. */
  function CDiv(a: int, b: int): (q: int)
    requires b != 0
    ensures a >= 0 && b > 0 ==> q == a / b
    ensures a <= 0 && b > 0 ==> q == -((-a) / b)
  {
    var m := (if a < 0 then -a else a) / (if b < 0 then -b else b);
    if (a < 0) == (b < 0) then m else -m
  }

  // ---------------------------------------------------------------------
  // Validation

  /** get_and_check: the parameter's value, or a failure with the message. */
  function GetAndCheck(param: Option<nat>, errorMsg: string): (r: Result<nat>)
    ensures r.Success? <==> param.Some?
    ensures r.Success? ==> Some(r.value) == param
    ensures r.Failure? ==> r.error == Check(errorMsg)
  {
    if param.Some? then Success(param.value) else Failure(Check(errorMsg))
  }

  /** check_params, run when a new game opens. */
  function CheckParams(env: Session): (s: Status)
    ensures s == Pass <==>
              && env.minAnte.Some? && env.maxAnte.Some? && env.maxPayout.Some?
              && env.minAnte.value <= env.maxAnte.value
              && env.minAnte.value <= env.deposit <= env.maxPayout.value
    ensures s.Fail? ==> s.error.Check?
  {
    var minAnte := GetAndCheck(env.minAnte, "min ante bet is absent");
    var maxAnte := GetAndCheck(env.maxAnte, "max ante bet is absent");
    var maxPayout := GetAndCheck(env.maxPayout, "max payout is absent");
    if minAnte.Failure? then Fail(minAnte.error)
    else if maxAnte.Failure? then Fail(maxAnte.error)
    else if maxPayout.Failure? then Fail(maxPayout.error)
    else if maxAnte.value < minAnte.value then Fail(Check("max ante bet is less than min"))
    else if env.deposit < minAnte.value then Fail(Check("deposit is less than min bet"))
    else if maxPayout.value < env.deposit then Fail(Check("deposit exceeds max payout"))
    else Pass
  }

  /** Both ante bounds are configured (check_bet dereferences them unchecked). */
  predicate HasAnteBounds(env: Session)
  {
    env.minAnte.Some? && env.maxAnte.Some?
  }

  /** check_bet: the ante lies within the bounds and the deposit covers
      exactly twice the ante, the most the player can lose. */
  function CheckBet(env: Session, ante: nat): (s: Status)
    requires HasAnteBounds(env)
    ensures s == Pass <==> env.minAnte.value <= ante <= env.maxAnte.value && 2 * ante == env.deposit
    ensures s.Fail? ==> s.error.Check?
  {
    if ante < env.minAnte.value then Fail(Check("ante bet is less than min"))
    else if ante > env.maxAnte.value then Fail(Check("ante bet is more than max"))
    else if 2 * ante != env.deposit then Fail(Check("max loss is more than deposit"))
    else Pass
  }

  // ---------------------------------------------------------------------
  // Player actions (on_action)

  /** The bet path of on_action reaches check_bet. */
  predicate ReachesCheckBet(row: Row, actionType: nat, params: seq<nat>)
  {
    actionType == BET_TYPE && row.phase == RequireBet && |params| == 1
  }

  /** The phase a decision leads to: hit and stand move on, the
      unimplemented decisions leave require_play in place. */
  function AfterDecision(d: Decision): (p: Phase)
    ensures p in {DealOneCard, Finish, RequirePlay}
    ensures p == RequirePlay <==> d !in {Hit, Stand}
  {
    match d
    case Hit => DealOneCard
    case Stand => Finish
    case _ => RequirePlay
  }

  /** on_action for a session whose row is `row`. */
  function ActionStep(row: Row, actionType: nat, params: seq<nat>, env: Session): (r: Result<Step>)
    requires ReachesCheckBet(row, actionType, params) ==> HasAnteBounds(env)
    ensures r.Success? ==> actionType in {BET_TYPE, PLAY_TYPE} && |params| == 1
    ensures r.Success? ==> r.value.row.playerCards == row.playerCards && r.value.row.dealerCard == row.dealerCard
    ensures r.Success? ==> (r.value.newBet.Some? <==> actionType == BET_TYPE)
    ensures r.Success? ==> r.value.effects != [] && r.value.effects[|r.value.effects| - 1] == RequireRandom
  {
    if actionType == BET_TYPE then
      if row.phase != RequireBet then Failure(Check("game state should be require_bet"))
      else if |params| != 1 then Failure(Check("invalid param size"))
      else match CheckBet(env, params[0])
        case Fail(e) => Failure(e)
        case Pass => Success(Step(row.(phase := DealCards), Some(params[0]),
                                  [UpdateMaxWin(2 * env.deposit), RequireRandom]))
    else if actionType == PLAY_TYPE then
      if row.phase != RequirePlay then Failure(Check("game state should be require_play"))
      else if |params| != 1 then Failure(Check("invalid param size"))
      else match DecisionOf(params[0])
        case None => Failure(Check("invalid decision"))
        case Some(d) => Success(Step(row.(phase := AfterDecision(d)), None, [RequireRandom]))
    else Failure(Check("invalid action"))
  }

  // ---------------------------------------------------------------------
  // Dealing (on_random)

  /** The card at position i of the deck: past the end is an out-of-range
      failure, an unknown label the "invalid card" failure. */
  function CardAt(deck: seq<string>, i: nat): (r: Result<Card>)
    ensures r.Success? ==> IsValid(r.value)
  {
    if i < |deck| then Parse(deck[i]) else Failure(OutOfRange)
  }

  /** handle_deal_cards: player gets deck[0], deck[1], the dealer's open card
      is deck[2]; the hole card deck[3] is dealt only to settle a player's
      blackjack. */
  function InitialDeal(deck: seq<string>, w: WeightFn): (r: Result<Deal>)
    ensures r.Success? ==> |r.value.player| == 2 && 1 <= |r.value.dealer| <= 2 && r.value.outcome != Dealer
    ensures r.Success? ==> forall c :: c in r.value.player + r.value.dealer ==> IsValid(c)
  {
    var p0 :- CardAt(deck, 0);
    var p1 :- CardAt(deck, 1);
    var open :- CardAt(deck, 2);
    if w([p0, p1]) == 21 then
      var hole :- CardAt(deck, 3);
      var dealer := [open, hole];
      Success(Deal(if w(dealer) == 21 then Draw else Player, [p0, p1], dealer))
    else
      Success(Deal(CarryOn, [p0, p1], [open]))
  }

  /** The dealer's drawing loop from position i on: draw while the hand weighs
      16 or less.  The result extends `hand` by deck[i], deck[i+1], ... in
      order, weighs more than 16, and every shorter extension weighed 16 or
      less (the dealer stops the first time the weight reaches 17). */
  function DealerDraw(hand: seq<Card>, deck: seq<string>, i: nat, w: WeightFn): (r: Result<seq<Card>>)
    requires i <= |deck|
    ensures r.Success? ==> |hand| <= |r.value| <= |hand| + |deck| - i
    ensures r.Success? ==> r.value[..|hand|] == hand && w(r.value) > 16
    ensures r.Success? ==> forall k :: |hand| <= k < |r.value| ==>
              CardAt(deck, i + k - |hand|) == Success(r.value[k]) && w(r.value[..k]) <= 16
    decreases |deck| - i
  {
    if w(hand) > 16 then Success(hand)
    else if i == |deck| then Failure(OutOfRange)
    else
      var c :- CardAt(deck, i);
      DealerDraw(hand + [c], deck, i + 1, w)
  }

  /** The dealer's final hand: the open card, then deck[0], deck[1], ... */
  function DealerHand(open: Card, deck: seq<string>, w: WeightFn): (r: Result<seq<Card>>)
    ensures r.Success? ==> 1 <= |r.value| <= |deck| + 1 && r.value[0] == open && w(r.value) > 16
  {
    DealerDraw([open], deck, 0, w)
  }

  /** Who wins once the dealer has drawn. */
  function Showdown(player: seq<Card>, dealer: seq<Card>, w: WeightFn): (o: Outcome)
    ensures o != CarryOn
    ensures o == Dealer ==> w(player) < w(dealer) <= 21
    ensures o == Draw ==> w(player) == w(dealer) <= 21
  {
    var dealerWeight := w(dealer);
    if dealerWeight > 21 then Player
    else
      var playerWeight := w(player);
      if playerWeight < dealerWeight then Dealer
      else if playerWeight == dealerWeight then Draw
      else Player
  }

  /** The player's win at the end of a stood hand (player_win); a dealer's
      two-card 21 costs one and a half antes, -3 * ante / 2 in C++. */
  function MainWin(outcome: Outcome, dealer: seq<Card>, ante: nat, w: WeightFn): (win: int)
    ensures -((3 * ante) / 2) <= win <= ante
    ensures outcome == Dealer ==> win <= 0
    ensures outcome != Dealer ==> win >= 0
  {
    match outcome
    case Player => ante
    case Dealer => if |dealer| == 2 && w(dealer) == 21 then CDiv(-3 * ante, 2) else -(ante as int)
    case _ => 0
  }

  /** on_random for a session whose row is `row` and whose bet row holds
      `ante` (None when there is no bet row yet). */
  function RandomStep(row: Row, ante: Option<nat>, deck: seq<string>, deposit: nat, w: WeightFn): (r: Result<Step>)
    requires RowValid(row, ante.Some?)
    ensures r.Success? ==> r.value.newBet == None && 1 <= |r.value.effects| <= 2
    ensures r.Success? ==> (r.value.effects[0].FinishGame? <==> |r.value.effects| == 1)
    ensures r.Success? ==> r.value.row.phase in {RequirePlay, row.phase}
  {
    match row.phase
    case DealCards =>
      var deal :- InitialDeal(deck, w);
      var cards := Values(deal.player) + Values(deal.dealer);
      if deal.outcome == Draw then
        Success(Step(row, None, [FinishGame(deposit, cards)]))
      else if deal.outcome == Player then
        Success(Step(row, None, [FinishGame(deposit + CDiv(3 * ante.value, 2), cards)]))
      else
        Success(Step(Row(RequirePlay, deal.player, Some(deal.dealer[0])), None,
                     [RequireAction(PlayAction), SendMessage(cards)]))
    case DealOneCard =>
      var card :- CardAt(deck, 0);
      var cards := row.playerCards + [card];
      if w(cards) > 21 then
        Success(Step(row.(playerCards := cards), None, [FinishGame(deposit - ante.value, [card.value])]))
      else
        Success(Step(row.(playerCards := cards, phase := RequirePlay), None,
                     [RequireAction(PlayAction), SendMessage([card.value])]))
    case Finish =>
      var dealer :- DealerHand(row.dealerCard.value, deck, w);
      var outcome := Showdown(row.playerCards, dealer, w);
      Success(Step(row, None, [FinishGame(deposit + MainWin(outcome, dealer, ante.value, w), Values(dealer[1..]))]))
    case _ => Failure(Check("invalid game state"))
  }
}
