/** The blackjack game contract (contracts/src/blackjack.cpp): the `state`
    table of round rows and the `bet` table of antes, both keyed by session,
    and the handlers the platform calls for a new game, a player action and a
    revealed seed.

    Each handler either fails, leaving both tables as they were (the
    platform rolls the transaction back), or commits the new rows and
    returns the requests it makes of the platform, in order. */
module Contract {
  import opened Results
  import opened Cards
  import opened Round
  import RoundProperties

  /** The effects of an event, or its failure. */
  function EffectsOf(s: Result<Step>): Result<seq<Effect>>
  {
    match s
    case Success(step) => Success(step.effects)
    case Failure(e) => Failure(e)
  }

  /** The ante of a session's bet row, if it has one. */
  function AnteOf(bets: map<nat, nat>, sesId: nat): Option<nat>
  {
    if sesId in bets then Some(bets[sesId]) else None
  }

  /** card(deck[i]) / card(deck.at(i)) in the production build. */
  method DeckCard(deck: seq<string>, i: nat) returns (r: Result<Card>)
    ensures r == CardAt(deck, i)
  {
    if i >= |deck| {
      return Failure(OutOfRange);
    }
    r := FromString(deck[i]);
  }

  /** The loops of on_random that push each card's code onto the message. */
  method PushValues(out: seq<nat>, cards: seq<Card>) returns (r: seq<nat>)
    ensures r == out + Values(cards)
  {
    r := out;
    for i := 0 to |cards|
      invariant r == out + Values(cards[..i])
    {
      assert cards[..i + 1] == cards[..i] + [cards[i]];
      r := r + [cards[i].value];
    }
    assert cards[..|cards|] == cards;
  }

  class Blackjack {
    /** card_game::get_weight, which is not part of this model. */
    const weight: WeightFn
    /** The `state` table: one round row per session. */
    var state: map<nat, Row>
    /** The `bet` table: the ante of each session that has bet. */
    var bet: map<nat, nat>

    /** The tables agree: a session has a bet row only once it has left
        require_bet, and its row holds real cards (and, from the first
        decision on, the player's hand and the dealer's open card). */
    ghost predicate Valid()
      reads this
      ensures Valid() ==> forall id :: id in bet ==> id in state && state[id].phase != RequireBet
    {
      && bet.Keys <= state.Keys
      && forall id :: id in state ==> RowValid(state[id], id in bet)
    }

    constructor(weight: WeightFn)
      ensures Valid()
      ensures this.weight == weight && state == map[] && bet == map[]
    {
      this.weight := weight;
      state := map[];
      bet := map[];
    }

    /** handle_deal_cards: deals from the deck and, unless the player has a
        blackjack, stores the player's cards and the open card in the row. */
    method HandleDealCards(sesId: nat, deck: seq<string>) returns (r: Result<Deal>)
      requires sesId in state
      modifies this`state
      ensures r == InitialDeal(deck, weight)
      ensures state == if r.Success? && r.value.outcome == CarryOn
                       then old(state)[sesId := old(state)[sesId].(playerCards := r.value.player,
                                                                    dealerCard := Some(r.value.dealer[0]))]
                       else old(state)
    {
      var p0 :- DeckCard(deck, 0);
      var p1 :- DeckCard(deck, 1);
      var open :- DeckCard(deck, 2);
      var playerCards := [p0, p1];
      if weight(playerCards) == 21 {
        // the player has a blackjack: the hole card settles the round
        var hole :- DeckCard(deck, 3);
        var dealerCards := [open, hole];
        if weight(dealerCards) == 21 {
          return Success(Deal(Draw, playerCards, dealerCards));
        }
        return Success(Deal(Player, playerCards, dealerCards));
      }
      // the hole card goes back to the deck
      state := state[sesId := state[sesId].(playerCards := playerCards, dealerCard := Some(open))];
      r := Success(Deal(CarryOn, playerCards, [open]));
    }

    /** handle_deal_one_card: appends deck[0] to the player's stored cards;
        a weight over 21 is the dealer's win. */
    method HandleDealOneCard(sesId: nat, deck: seq<string>) returns (r: Result<(Outcome, Card)>)
      requires sesId in state
      modifies this`state
      ensures r.Failure? ==> CardAt(deck, 0).Failure? && r.error == CardAt(deck, 0).error && state == old(state)
      ensures r.Success? ==>
                && CardAt(deck, 0) == Success(r.value.1)
                && state == old(state)[sesId := old(state)[sesId].(playerCards := old(state)[sesId].playerCards + [r.value.1])]
                && r.value.0 == (if weight(state[sesId].playerCards) > 21 then Dealer else CarryOn)
    {
      var newCard :- DeckCard(deck, 0);
      var playerCards := state[sesId].playerCards + [newCard];
      state := state[sesId := state[sesId].(playerCards := playerCards)];
      if weight(playerCards) > 21 {
        // the player busts
        return Success((Dealer, newCard));
      }
      r := Success((CarryOn, newCard));
    }

    /** handle_finish_game: the dealer draws from deck[0] on while the hand
        weighs 16 or less, then the hands are compared. */
    method HandleFinishGame(sesId: nat, deck: seq<string>) returns (r: Result<(Outcome, seq<Card>)>)
      requires sesId in state && state[sesId].dealerCard.Some?
      ensures r == match DealerHand(state[sesId].dealerCard.value, deck, weight)
                   case Success(d) => Success((Showdown(state[sesId].playerCards, d, weight), d))
                   case Failure(e) => Failure(e)
    {
      var row := state[sesId];
      var dealerCards := [row.dealerCard.value];
      var i := 0;
      while weight(dealerCards) <= 16
        invariant i <= |deck|
        invariant DealerDraw(dealerCards, deck, i, weight) == DealerHand(row.dealerCard.value, deck, weight)
        decreases |deck| - i
      {
        if i == |deck| {
          // deck.at throws past the end
          return Failure(OutOfRange);
        }
        var c :- DeckCard(deck, i);
        dealerCards := dealerCards + [c];
        i := i + 1;
      }
      var dealerWeight := weight(dealerCards);
      if dealerWeight > 21 {
        // the dealer busts
        return Success((Player, dealerCards));
      }
      var playerWeight := weight(row.playerCards);
      if playerWeight < dealerWeight {
        return Success((Dealer, dealerCards));
      } else if playerWeight == dealerWeight {
        return Success((Draw, dealerCards));
      }
      r := Success((Player, dealerCards));
    }

    /** on_new_game: checks the session's parameters, asks for the bet and
        creates the round row in require_bet. */
    method OnNewGame(sesId: nat, env: Session) returns (r: Result<seq<Effect>>)
      requires Valid() && sesId !in state
      modifies this`state
      ensures Valid()
      ensures r.Success? <==> CheckParams(env) == Pass
      ensures r.Success? ==> r.value == [RequireAction(BetAction)]
      ensures r.Failure? ==> CheckParams(env) == Fail(r.error)
      ensures state == if r.Success? then old(state)[sesId := Row(RequireBet, [], None)] else old(state)
    {
      var ok := CheckParams(env);
      if ok.Fail? {
        return Failure(ok.error);
      }
      state := state[sesId := Row(RequireBet, [], None)];
      r := Success([RequireAction(BetAction)]);
    }

    /** on_action: a bet in require_bet, or a decision in require_play. */
    method OnAction(sesId: nat, actionType: nat, params: seq<nat>, env: Session) returns (r: Result<seq<Effect>>)
      requires Valid()
      requires sesId in state && ReachesCheckBet(state[sesId], actionType, params) ==> HasAnteBounds(env)
      modifies this`state, this`bet
      ensures Valid()
      ensures sesId !in old(state) ==>
                r == Failure(Check("invalid ses_id")) && state == old(state) && bet == old(bet)
      ensures sesId in old(state) ==>
                var s := ActionStep(old(state)[sesId], actionType, params, env);
                && r == EffectsOf(s)
                && state == (if s.Success? then old(state)[sesId := s.value.row] else old(state))
                && bet == (if s.Success? && s.value.newBet.Some? then old(bet)[sesId := s.value.newBet.value] else old(bet))
    {
      if sesId !in state {
        return Failure(Check("invalid ses_id"));
      }
      var row := state[sesId];
      if actionType == BET_TYPE {
        if row.phase != RequireBet {
          return Failure(Check("game state should be require_bet"));
        }
        if |params| != 1 {
          return Failure(Check("invalid param size"));
        }
        var ok := CheckBet(env, params[0]);
        if ok.Fail? {
          return Failure(ok.error);
        }
        bet := bet[sesId := params[0]];
        var maxWin := 2 * env.deposit;
        state := state[sesId := row.(phase := DealCards)];
        r := Success([UpdateMaxWin(maxWin), RequireRandom]);
      } else if actionType == PLAY_TYPE {
        if row.phase != RequirePlay {
          return Failure(Check("game state should be require_play"));
        }
        if |params| != 1 {
          return Failure(Check("invalid param size"));
        }
        var decision := DecisionOf(params[0]);
        match decision {
          case Some(Hit) =>
            state := state[sesId := row.(phase := DealOneCard)];
          case Some(Stand) =>
            state := state[sesId := row.(phase := Finish)];
          case Some(Insure) =>
          case Some(Split) =>
          case Some(DoubleDown) =>
          case None =>
            return Failure(Check("invalid decision"));
        }
        // a seed for the next card(s)
        r := Success([RequireRandom]);
      } else {
        return Failure(Check("invalid action"));
      }
      RoundProperties.ActionKeepsRowValid(row, sesId in old(bet), actionType, params, env);
    }

    /** The round after an event: `r` is the event's outcome and the state
        table holds the new row when it succeeded, the old table otherwise. */
    ghost predicate Commits(before: map<nat, Row>, sesId: nat, s: Result<Step>, r: Result<seq<Effect>>)
      reads this
      requires sesId in before
    {
      && r == EffectsOf(s)
      && state == (if s.Success? then before[sesId := s.value.row] else before)
    }

    /** on_random: deals according to the row's phase and settles the round
        when it ends. */
    method OnRandom(sesId: nat, deck: seq<string>, env: Session) returns (r: Result<seq<Effect>>)
      requires Valid()
      modifies this`state
      ensures Valid() && bet == old(bet)
      ensures sesId !in old(state) ==> r == Failure(Check("invalid ses_id")) && state == old(state)
      ensures sesId in old(state) ==>
                Commits(old(state), sesId, RandomStep(old(state)[sesId], AnteOf(bet, sesId), deck, env.deposit, weight), r)
    {
      if sesId !in state {
        return Failure(Check("invalid ses_id"));
      }
      var row := state[sesId];
      match row.phase {
        case DealCards =>
          r := DealCardsSeed(sesId, deck, env);
        case DealOneCard =>
          r := DealOneCardSeed(sesId, deck, env);
        case Finish =>
          r := FinishSeed(sesId, deck, env);
        case _ =>
          return Failure(Check("invalid game state"));
      }
      var spec := RandomStep(row, AnteOf(bet, sesId), deck, env.deposit, weight);
      if spec.Success? {
        RoundProperties.SeedKeepsRowValid(row, AnteOf(bet, sesId), deck, env.deposit, weight);
      }
    }

    /** The deal_cards case of on_random. */
    method DealCardsSeed(sesId: nat, deck: seq<string>, env: Session) returns (r: Result<seq<Effect>>)
      requires Valid() && sesId in state && state[sesId].phase == DealCards
      modifies this`state
      ensures Commits(old(state), sesId, RandomStep(old(state)[sesId], AnteOf(bet, sesId), deck, env.deposit, weight), r)
    {
      var deal :- HandleDealCards(sesId, deck);
      var cards := PushValues([], deal.player);
      cards := PushValues(cards, deal.dealer);
      assert cards == Values(deal.player) + Values(deal.dealer);
      RoundProperties.InitialDealShape(deck, weight);
      if deal.outcome == Draw {
        // both have a blackjack
        r := Success([FinishGame(env.deposit, cards)]);
      } else if deal.outcome == Player {
        // a player's blackjack pays 3:2
        r := Success([FinishGame(env.deposit + CDiv(3 * bet[sesId], 2), cards)]);
      } else {
        state := state[sesId := state[sesId].(phase := RequirePlay)];
        r := Success([RequireAction(PlayAction), SendMessage(cards)]);
      }
    }

    /** The deal_one_card case of on_random. */
    method DealOneCardSeed(sesId: nat, deck: seq<string>, env: Session) returns (r: Result<seq<Effect>>)
      requires Valid() && sesId in state && state[sesId].phase == DealOneCard
      modifies this`state
      ensures Commits(old(state), sesId, RandomStep(old(state)[sesId], AnteOf(bet, sesId), deck, env.deposit, weight), r)
    {
      var res :- HandleDealOneCard(sesId, deck);
      var (outcome, playerCard) := res;
      if outcome == Dealer {
        // the player busts
        r := Success([FinishGame(env.deposit - bet[sesId], [playerCard.value])]);
      } else {
        state := state[sesId := state[sesId].(phase := RequirePlay)];
        r := Success([RequireAction(PlayAction), SendMessage([playerCard.value])]);
      }
    }

    /** The finish case of on_random: the payout is the deposit plus the
        player's win, and the message omits the open card. */
    method FinishSeed(sesId: nat, deck: seq<string>, env: Session) returns (r: Result<seq<Effect>>)
      requires Valid() && sesId in state && state[sesId].phase == Finish
      ensures Commits(state, sesId, RandomStep(state[sesId], AnteOf(bet, sesId), deck, env.deposit, weight), r)
    {
      var res :- HandleFinishGame(sesId, deck);
      var (outcome, dealerCards) := res;
      var ante: int := bet[sesId];
      var playerWin: int := 0;
      if outcome == Player {
        playerWin := ante;
      } else if outcome == Dealer {
        if |dealerCards| == 2 && weight(dealerCards) == 21 {
          // the dealer has a blackjack
          playerWin := CDiv(-3 * ante, 2);
        } else {
          playerWin := -ante;
        }
      }
      // the open card was shown at the deal
      var newCards := dealerCards[1..];
      var cards := PushValues([], newCards);
      assert cards == Values(newCards);
      r := Success([FinishGame(env.deposit + playerWin, cards)]);
    }
  }
}
