/** What the rules of a round promise: which events each phase accepts, what
    the deal and the dealer's drawing produce, and the bounds on the payout. */
module RoundProperties {
  import opened Results
  import opened Cards
  import opened Round

  // ---------------------------------------------------------------------
  // Validation

  /** check_params reports the first failing check, in the order of the
      source: the three missing parameters, then the ordering of the ante
      bounds, then the deposit against the minimum ante and the maximum
      payout. */
  lemma CheckParamsAccepts(env: Session)
    ensures env.minAnte.None? ==> CheckParams(env) == Fail(Check("min ante bet is absent"))
    ensures env.minAnte.Some? && env.maxAnte.None? ==> CheckParams(env) == Fail(Check("max ante bet is absent"))
    ensures env.minAnte.Some? && env.maxAnte.Some? && env.maxPayout.None? ==>
              CheckParams(env) == Fail(Check("max payout is absent"))
    ensures env.minAnte.Some? && env.maxAnte.Some? && env.maxPayout.Some? ==>
              var (lo, hi, top) := (env.minAnte.value, env.maxAnte.value, env.maxPayout.value);
              && (hi < lo ==> CheckParams(env) == Fail(Check("max ante bet is less than min")))
              && (lo <= hi && env.deposit < lo ==> CheckParams(env) == Fail(Check("deposit is less than min bet")))
              && (lo <= hi && lo <= env.deposit && top < env.deposit ==>
                    CheckParams(env) == Fail(Check("deposit exceeds max payout")))
  {
  }

  /** check_bet reports the first failing bound: the minimum, then the
      maximum, then the deposit. */
  lemma CheckBetAccepts(env: Session, ante: nat)
    requires HasAnteBounds(env)
    ensures ante < env.minAnte.value ==> CheckBet(env, ante) == Fail(Check("ante bet is less than min"))
    ensures env.minAnte.value <= ante && ante > env.maxAnte.value ==>
              CheckBet(env, ante) == Fail(Check("ante bet is more than max"))
    ensures env.minAnte.value <= ante <= env.maxAnte.value && 2 * ante != env.deposit ==>
              CheckBet(env, ante) == Fail(Check("max loss is more than deposit"))
  {
  }

  // ---------------------------------------------------------------------
  // Transitions on player actions

  /** A bet is accepted only in require_bet with exactly one parameter that
      passes check_bet; it creates the bet row with that ante, reserves twice
      the deposit as the maximum win, moves to deal_cards and asks for a seed. */
  lemma BetTransition(row: Row, params: seq<nat>, env: Session)
    requires ReachesCheckBet(row, BET_TYPE, params) ==> HasAnteBounds(env)
    ensures ActionStep(row, BET_TYPE, params, env).Success? <==>
              ReachesCheckBet(row, BET_TYPE, params) && CheckBet(env, params[0]) == Pass
    ensures ActionStep(row, BET_TYPE, params, env).Success? ==>
              ActionStep(row, BET_TYPE, params, env).value ==
                Step(row.(phase := DealCards), Some(params[0]), [UpdateMaxWin(2 * env.deposit), RequireRandom])
    ensures row.phase != RequireBet ==>
              ActionStep(row, BET_TYPE, params, env) == Failure(Check("game state should be require_bet"))
  {
  }

  /** A decision is accepted only in require_play with exactly one known
      decision code; hit moves to deal_one_card, stand to finish, and insure,
      split and double_down leave the row as it was.  Every accepted decision
      asks for a seed; an unknown code fails with "invalid decision". */
  lemma PlayTransition(row: Row, params: seq<nat>, env: Session)
    ensures ActionStep(row, PLAY_TYPE, params, env).Success? <==>
              row.phase == RequirePlay && |params| == 1 && DecisionOf(params[0]).Some?
    ensures ActionStep(row, PLAY_TYPE, params, env).Success? ==>
              var s := ActionStep(row, PLAY_TYPE, params, env).value;
              && s.newBet == None && s.effects == [RequireRandom]
              && s.row.playerCards == row.playerCards && s.row.dealerCard == row.dealerCard
              && (DecisionOf(params[0]) == Some(Hit) ==> s.row.phase == DealOneCard)
              && (DecisionOf(params[0]) == Some(Stand) ==> s.row.phase == Finish)
              && (DecisionOf(params[0]) !in {Some(Hit), Some(Stand)} ==> s.row == row)
    ensures row.phase == RequirePlay && |params| == 1 && DecisionOf(params[0]).None? ==>
              ActionStep(row, PLAY_TYPE, params, env) == Failure(Check("invalid decision"))
  {
  }

  /** Any action type other than bet and play fails with "invalid action". */
  lemma OtherActionRejected(row: Row, actionType: nat, params: seq<nat>, env: Session)
    requires actionType != BET_TYPE && actionType != PLAY_TYPE
    ensures ActionStep(row, actionType, params, env) == Failure(Check("invalid action"))
  {
  }

  // ---------------------------------------------------------------------
  // Transitions on a revealed seed

  /** A seed is handled only in deal_cards, deal_one_card and finish; in any
      other phase it fails with "invalid game state", and no other failure
      carries that message. */
  lemma SeedOnlyWhileDealing(row: Row, ante: Option<nat>, deck: seq<string>, deposit: nat, w: WeightFn)
    requires RowValid(row, ante.Some?)
    ensures RandomStep(row, ante, deck, deposit, w) == Failure(Check("invalid game state")) <==>
              row.phase in {RequireBet, RequirePlay}
  {
    var r := RandomStep(row, ante, deck, deposit, w);
    if row.phase !in {RequireBet, RequirePlay} && r.Failure? {
      match row.phase {
        case DealCards => InitialDealFails(deck, w);
        case DealOneCard => CardAtFails(deck, 0);
        case Finish => DealerDrawFails([row.dealerCard.value], deck, 0, w);
      }
      assert DealingError(r.error);
      if r.error.Check? {
        assert r.error.msg[..14][8] == 'c';
        assert "invalid game state"[8] == 'g';
      }
    }
  }

  /** The failures of dealing: the deck runs out, or a label is unknown. */
  predicate DealingError(e: Error)
  {
    e == OutOfRange || (e.Check? && |e.msg| >= 14 && e.msg[..14] == "invalid card: ")
  }

  lemma CardAtFails(deck: seq<string>, i: nat)
    ensures CardAt(deck, i).Failure? ==> DealingError(CardAt(deck, i).error)
  {
    if i < |deck| && CardAt(deck, i).Failure? {
      assert ("invalid card: " + deck[i])[..14] == "invalid card: ";
    }
  }

  lemma InitialDealFails(deck: seq<string>, w: WeightFn)
    ensures InitialDeal(deck, w).Failure? ==> DealingError(InitialDeal(deck, w).error)
  {
    CardAtFails(deck, 0);
    CardAtFails(deck, 1);
    CardAtFails(deck, 2);
    CardAtFails(deck, 3);
  }

  lemma {:induction false} DealerDrawFails(hand: seq<Card>, deck: seq<string>, i: nat, w: WeightFn)
    requires i <= |deck|
    ensures DealerDraw(hand, deck, i, w).Failure? ==> DealingError(DealerDraw(hand, deck, i, w).error)
    decreases |deck| - i
  {
    if w(hand) <= 16 && i < |deck| {
      CardAtFails(deck, i);
      if CardAt(deck, i).Success? {
        DealerDrawFails(hand + [CardAt(deck, i).value], deck, i + 1, w);
      }
    }
  }

  /** After insure, split or double_down the row stays in require_play, so the
      seed that the decision asked for always fails. */
  lemma UnimplementedDecisionStalls(row: Row, code: nat, env: Session, ante: Option<nat>,
                                    deck: seq<string>, deposit: nat, w: WeightFn)
    requires DecisionOf(code) in {Some(Insure), Some(Split), Some(DoubleDown)}
    requires ActionStep(row, PLAY_TYPE, [code], env).Success?
    requires RowValid(row, ante.Some?)
    ensures ActionStep(row, PLAY_TYPE, [code], env).value.row == row
    ensures ActionStep(row, PLAY_TYPE, [code], env).value.effects == [RequireRandom]
    ensures RandomStep(row, ante, deck, deposit, w) == Failure(Check("invalid game state"))
  {
  }

  /** The initial deal gives the player deck[0] and deck[1] and the dealer
      deck[2] face up.  With a player's 21 the hole card deck[3] is dealt too
      and the round is settled, as a draw exactly when the dealer also has
      21; otherwise the round carries on with only the open card dealt. */
  lemma InitialDealShape(deck: seq<string>, w: WeightFn)
    ensures InitialDeal(deck, w).Success? ==>
              var d := InitialDeal(deck, w).value;
              && |d.player| == 2 && 1 <= |d.dealer| <= 2
              && CardAt(deck, 0) == Success(d.player[0]) && CardAt(deck, 1) == Success(d.player[1])
              && CardAt(deck, 2) == Success(d.dealer[0])
              && (d.outcome == CarryOn <==> w(d.player) != 21)
              && (d.outcome == CarryOn <==> |d.dealer| == 1)
              && (d.outcome != CarryOn ==> CardAt(deck, 3) == Success(d.dealer[1]))
              && (d.outcome != CarryOn ==> (d.outcome == Draw <==> w(d.dealer) == 21))
              && d.outcome != Dealer
    ensures InitialDeal(deck, w).Failure? <==>
              CardAt(deck, 0).Failure? || CardAt(deck, 1).Failure? || CardAt(deck, 2).Failure? ||
              (w([CardAt(deck, 0).value, CardAt(deck, 1).value]) == 21 && CardAt(deck, 3).Failure?)
  {
  }

  /** The deal_cards seed: a player's blackjack ends the round, paying the
      deposit back against a dealer's 21 and deposit + 3 * ante / 2
      otherwise, and the message shows every dealt card (player's first);
      without a blackjack the row keeps the player's two cards and the open
      card (the hole card goes back to the deck) and waits for a decision. */
  lemma DealCardsStep(row: Row, ante: Option<nat>, deck: seq<string>, deposit: nat, w: WeightFn)
    requires RowValid(row, ante.Some?) && row.phase == DealCards
    requires RandomStep(row, ante, deck, deposit, w).Success?
    ensures InitialDeal(deck, w).Success?
    ensures var d := InitialDeal(deck, w).value;
            var s := RandomStep(row, ante, deck, deposit, w).value;
            var cards := Values(d.player) + Values(d.dealer);
            && (d.outcome == Draw ==> s.row == row && s.effects == [FinishGame(deposit, cards)])
            && (d.outcome == Player ==> s.row == row && s.effects == [FinishGame(deposit + (3 * ante.value) / 2, cards)])
            && (d.outcome == CarryOn ==>
                  && s.row == Row(RequirePlay, d.player, Some(d.dealer[0]))
                  && s.effects == [RequireAction(PlayAction), SendMessage(cards)]
                  && |cards| == 3)
  {
    InitialDealShape(deck, w);
    var d := InitialDeal(deck, w).value;
    if d.outcome == Player {
      assert CDiv(3 * ante.value, 2) == (3 * ante.value) / 2;
    }
  }

  /** A hit appends exactly deck[0] to the player's cards and changes nothing
      else in the row; a weight over 21 ends the round with deposit - ante,
      otherwise the round returns to require_play. */
  lemma HitStep(row: Row, ante: Option<nat>, deck: seq<string>, deposit: nat, w: WeightFn)
    requires RowValid(row, ante.Some?) && row.phase == DealOneCard
    requires RandomStep(row, ante, deck, deposit, w).Success?
    ensures CardAt(deck, 0).Success?
    ensures var c := CardAt(deck, 0).value;
            var s := RandomStep(row, ante, deck, deposit, w).value;
            && s.row.playerCards == row.playerCards + [c]
            && s.row.dealerCard == row.dealerCard
            && (w(s.row.playerCards) > 21 <==> s.row.phase == DealOneCard)
            && (w(s.row.playerCards) > 21 ==> s.effects == [FinishGame(deposit - ante.value, [c.value])])
            && (w(s.row.playerCards) <= 21 ==>
                  s.row.phase == RequirePlay && s.effects == [RequireAction(PlayAction), SendMessage([c.value])])
  {
  }

  /** The dealer's hand starts with the open card, continues with deck[0],
      deck[1], ... in order, and stops the first time its weight exceeds 16. */
  lemma DealerHandShape(open: Card, deck: seq<string>, w: WeightFn)
    ensures DealerHand(open, deck, w).Success? ==>
              var d := DealerHand(open, deck, w).value;
              && 1 <= |d| <= |deck| + 1 && d[0] == open && w(d) > 16
              && (forall k :: 1 <= k < |d| ==> CardAt(deck, k - 1) == Success(d[k]))
              && (forall k :: 1 <= k < |d| ==> w(d[..k]) <= 16)
  {
    var r := DealerHand(open, deck, w);
    if r.Success? {
      var d := r.value;
      assert d[..1] == [open];
      forall k | 1 <= k < |d| ensures CardAt(deck, k - 1) == Success(d[k]) && w(d[..k]) <= 16 {
      }
    }
  }

  /** Running out of deck while the dealer still has to draw is a failure:
      when every card left is real and the hand with any number of them
      still weighs 16 or less, the drawing loop reads past the end. */
  lemma {:induction false} DealerRunsOut(hand: seq<Card>, deck: seq<string>, i: nat, w: WeightFn)
    requires i <= |deck|
    requires forall k :: i <= k < |deck| ==> CardAt(deck, k).Success?
    requires forall j :: 0 <= j <= |deck| - i ==> w(hand + Draws(deck, i)[..j]) <= 16
    ensures DealerDraw(hand, deck, i, w) == Failure(OutOfRange)
    decreases |deck| - i
  {
    var all := Draws(deck, i);
    assert hand + all[..0] == hand;
    if i < |deck| {
      var c := CardAt(deck, i).value;
      var rest := Draws(deck, i + 1);
      assert all == [c] + rest;
      forall j | 0 <= j <= |deck| - (i + 1) ensures w(hand + [c] + rest[..j]) <= 16 {
        assert hand + [c] + rest[..j] == hand + all[..j + 1];
      }
      DealerRunsOut(hand + [c], deck, i + 1, w);
    }
  }

  /** The cards deck[i..] as they would be drawn, when all are real cards. */
  function Draws(deck: seq<string>, i: nat): (cs: seq<Card>)
    requires i <= |deck|
    requires forall k :: i <= k < |deck| ==> CardAt(deck, k).Success?
    ensures |cs| == |deck| - i
    decreases |deck| - i
  {
    if i == |deck| then [] else [CardAt(deck, i).value] + Draws(deck, i + 1)
  }

  /** Once the dealer has drawn: a dealer's bust is the player's win; else
      the higher weight wins and equal weights are a draw. */
  lemma ShowdownCases(player: seq<Card>, dealer: seq<Card>, w: WeightFn)
    ensures Showdown(player, dealer, w) != CarryOn
    ensures Showdown(player, dealer, w) == Player <==> w(dealer) > 21 || w(player) > w(dealer)
    ensures Showdown(player, dealer, w) == Dealer <==> w(dealer) <= 21 && w(player) < w(dealer)
    ensures Showdown(player, dealer, w) == Draw <==> w(dealer) <= 21 && w(player) == w(dealer)
  {
  }

  /** A player's win pays the ante, a draw nothing; a dealer's win costs the
      ante, or one and a half antes (rounded toward zero) against a
      two-card 21. */
  lemma SettlementAmounts(outcome: Outcome, dealer: seq<Card>, ante: nat, w: WeightFn)
    ensures outcome == Player ==> MainWin(outcome, dealer, ante, w) == ante
    ensures outcome == Draw ==> MainWin(outcome, dealer, ante, w) == 0
    ensures outcome == Dealer && |dealer| == 2 && w(dealer) == 21 ==>
              MainWin(outcome, dealer, ante, w) == -((3 * ante) / 2)
    ensures outcome == Dealer && !(|dealer| == 2 && w(dealer) == 21) ==>
              MainWin(outcome, dealer, ante, w) == -(ante as int)
    ensures -((3 * ante) / 2) <= MainWin(outcome, dealer, ante, w) <= ante
  {
  }

  /** The finish seed settles the round once: the dealer draws from the
      deck, the payout is deposit plus the main win, and the message lists
      only the newly drawn cards, deck[0], deck[1], ... (the open card was
      shown at the deal). */
  lemma FinishStep(row: Row, ante: Option<nat>, deck: seq<string>, deposit: nat, w: WeightFn)
    requires RowValid(row, ante.Some?) && row.phase == Finish
    requires RandomStep(row, ante, deck, deposit, w).Success?
    ensures DealerHand(row.dealerCard.value, deck, w).Success?
    ensures var d := DealerHand(row.dealerCard.value, deck, w).value;
            var s := RandomStep(row, ante, deck, deposit, w).value;
            && s.row == row
            && s.effects == [FinishGame(deposit + MainWin(Showdown(row.playerCards, d, w), d, ante.value, w), Values(d[1..]))]
            && |s.effects[0].cards| == |d| - 1
            && forall k :: 0 <= k < |d| - 1 ==> CardAt(deck, k) == Success(Card(s.effects[0].cards[k]))
  {
    var d := DealerHand(row.dealerCard.value, deck, w).value;
    DealerHandShape(row.dealerCard.value, deck, w);
    forall k | 0 <= k < |d| - 1 ensures CardAt(deck, k) == Success(Card(Values(d[1..])[k])) {
      assert CardAt(deck, (k + 1) - 1) == Success(d[k + 1]);
    }
  }

  /** With the bet the deposit requires (2 * ante == deposit), every final
      payout lies between 0 and 2 * deposit, the maximum win reserved when
      the bet was placed; a round that ends does so with exactly one effect. */
  lemma PayoutBounds(row: Row, ante: Option<nat>, deck: seq<string>, deposit: nat, w: WeightFn)
    requires RowValid(row, ante.Some?) && ante.Some? && 2 * ante.value == deposit
    requires RandomStep(row, ante, deck, deposit, w).Success?
    ensures var effects := RandomStep(row, ante, deck, deposit, w).value.effects;
            forall e :: e in effects && e.FinishGame? ==> effects == [e] && 0 <= e.payout <= 2 * deposit
  {
    var a: int := ante.value;
    var s := RandomStep(row, ante, deck, deposit, w).value;
    match row.phase
    case DealCards =>
      DealCardsStep(row, ante, deck, deposit, w);
    case DealOneCard =>
      HitStep(row, ante, deck, deposit, w);
    case Finish =>
      FinishStep(row, ante, deck, deposit, w);
      var d := DealerHand(row.dealerCard.value, deck, w).value;
      SettlementAmounts(Showdown(row.playerCards, d, w), d, a, w);
    case RequireBet =>
    case RequirePlay =>
  }

  // ---------------------------------------------------------------------
  // The persisted row stays well formed

  /** An accepted action keeps the row well formed and creates the bet row
      only when there was none. */
  lemma ActionKeepsRowValid(row: Row, hasBet: bool, actionType: nat, params: seq<nat>, env: Session)
    requires RowValid(row, hasBet)
    requires ReachesCheckBet(row, actionType, params) ==> HasAnteBounds(env)
    requires ActionStep(row, actionType, params, env).Success?
    ensures var s := ActionStep(row, actionType, params, env).value;
            (s.newBet.Some? ==> !hasBet) && RowValid(s.row, hasBet || s.newBet.Some?)
  {
  }

  /** A handled seed keeps the row well formed and creates no bet row. */
  lemma SeedKeepsRowValid(row: Row, ante: Option<nat>, deck: seq<string>, deposit: nat, w: WeightFn)
    requires RowValid(row, ante.Some?)
    requires RandomStep(row, ante, deck, deposit, w).Success?
    ensures var s := RandomStep(row, ante, deck, deposit, w).value;
            s.newBet == None && RowValid(s.row, ante.Some?)
  {
    if row.phase == DealCards {
      InitialDealShape(deck, w);
    }
  }
}
