# Blackjack game contract — a Dafny model

This project models the core of the DaoCasino blackjack game contract:

- the card encoding of `contracts/include/blackjack/card.hpp`;
- the round state machine and settlement of `contracts/src/blackjack.cpp`.

**Cards.** A card is the code `rank * 4 + colour`. The codes 0..51 have the labels "2c", "2d", ..., "As". A card can be built from a label (looked up in the label table), from a three-character C string, or from an integer. It can be printed back to its label and compared by rank.

**Rounds.** The platform calls the contract with three kinds of event: a new game, a player action (a bet or a decision), and a revealed random seed. A round moves through the phases

    require_bet -> deal_cards -> require_play -> deal_one_card | finish

Each event either fails, leaving the tables unchanged, or commits the new rows and makes requests of the platform in order. Those requests are: ask for an action, ask for a seed, update the maximum win, send a message, or finish the game with a payout.

The model has five modules:

- `Results` holds the failure values. A failed `eosio::check` becomes `Check(msg)`. An index past the end of a vector becomes `OutOfRange`.
- `Cards` models `card.hpp`.
- `Round` gives the rules as pure functions of the persisted row, the session's parameters and the deck: `ActionStep` for on_action, and `RandomStep` for on_random, which includes handle_deal_one_card. `InitialDeal` models handle_deal_cards; `DealerHand` and `Showdown` model handle_finish_game; `CheckParams` and `CheckBet` model the checks. on_new_game has no function of its own.
- `RoundProperties` proves what the rules promise.
- `Contract` is the contract object. It holds the `state` and `bet` tables as maps and has the imperative handlers. `OnAction` and `OnRandom` are proved equal to `Round.ActionStep` and `Round.RandomStep`. `OnNewGame`'s contract is stated directly in terms of `Round.CheckParams`. `OnNewGame`, `OnAction` and `OnRandom` keep the tables well formed (`Valid`). The helpers they call (`HandleDealCards`, `HandleDealOneCard`, `DealCardsSeed`, `DealOneCardSeed`, `FinishSeed`) are specified by what they return and change, and `OnRandom` proves `Valid` once they return.

## Model

| member | source | states |
|---|---|---|
| Cards.RankIndex | contracts/include/blackjack/card.hpp:18 | the position of a rank character in RANKS, or 13 exactly when the character is not a rank |
| Cards.ColorIndex | contracts/include/blackjack/card.hpp:19 | the position of a colour character in COLORS, or 4 exactly when it is not a colour |
| Cards.GetLabels | contracts/include/blackjack/card.hpp:21-33 | the nested loops build exactly the rank-major, colour-minor label table |
| Cards.LabelTableShape | contracts/include/blackjack/card.hpp:21-33 | the table has 52 labels, the one at 4*r+c is RANKS[r] followed by COLORS[c], and no label occurs twice |
| Cards.Find | contracts/include/blackjack/card.hpp:44 | std::find returns the first index holding the key, or the end position when the key is absent |
| Cards.LabelValue | contracts/include/blackjack/card.hpp:44 | a string's code lies in 0..52, and 52 means "not a label" |
| Cards.DecodeLabel | contracts/include/blackjack/card.hpp:21-33 | the label at position v of the table decodes back to v |
| Cards.LabelValueIsFind | contracts/include/blackjack/card.hpp:44 | the decoded code is the position std::find reports: the first position holding the label, and 52 exactly when the string is not in the table |
| Cards.LabelTable | contracts/include/blackjack/card.hpp:21-33 | the label table has one entry per card, 52 in all |
| Cards.Parse | contracts/include/blackjack/card.hpp:42-48 | a string parses exactly when it is in the label table; the card is valid and its table label is the string; otherwise the error is "invalid card: " plus the string |
| Cards.FromString | contracts/include/blackjack/card.hpp:42-48 | the constructor from a label gives the label's table position, and fails with "invalid card: " plus the label when the label is unknown |
| Cards.CString | contracts/include/blackjack/card.hpp:56 | std::string(s) is the prefix of s that ends at the first NUL; for an array without a NUL, which is undefined behaviour in C++, it is all of s |
| Cards.FromChars | contracts/include/blackjack/card.hpp:49-58 | only the first two characters are looked up; the error message quotes the whole C string |
| Cards.FromInt | contracts/include/blackjack/card.hpp:41 | the int is converted to a 32-bit unsigned code, unchanged when it is in range |
| Cards.Rank | contracts/include/blackjack/card.hpp:76 | the rank is the code's group of four (4 * rank <= code < 4 * rank + 4), and it is a real rank exactly when the card is valid |
| Cards.IsValid | contracts/include/blackjack/card.hpp:72-74 | operator bool holds exactly when the code has an entry in the label table |
| Cards.Less | contracts/include/blackjack/card.hpp:60-62 | a card that is less by rank has a smaller code and is not equal |
| Cards.Greater | contracts/include/blackjack/card.hpp:64-66 | a card that is greater by rank has a larger code and is not equal |
| Cards.Same | contracts/include/blackjack/card.hpp:68-70 | two cards are equal exactly when both rank and colour agree |
| Cards.Color | contracts/include/blackjack/card.hpp:76-78 | the colour is below 4 and the code is 4 * rank + colour |
| Cards.NextRank | contracts/include/blackjack/card.hpp:80 | the next rank is the rank of the card one rank up in the same colour; for a valid card it is a real rank exactly when the card is not an ace |
| Cards.ToString | contracts/include/blackjack/card.hpp:82-87 | printing succeeds exactly for a valid card (operator bool, lines 72-74) and gives the card's table label; past ACE `at` throws out_of_range |
| Cards.LabelRoundTrip | contracts/include/blackjack/card.hpp:42-48 | every table label parses to a valid card that prints back as the same label |
| Cards.ValueRoundTrip | contracts/include/blackjack/card.hpp:82-87 | every code 0..51 prints to a label that parses back to the same code |
| Cards.UnknownLabel | contracts/include/blackjack/card.hpp:46 | a string that is not in the table decodes to 52 and is rejected with "invalid card: " plus the string |
| Cards.OrderIgnoresColor | contracts/include/blackjack/card.hpp:38-70 | cards are ordered by rank alone: two cards of one rank and different colours are neither less, greater nor equal; `<` and `>` are converses |
| Round.GetAndCheck | contracts/src/blackjack.cpp:7-14 | succeeds exactly when the parameter is present, with its value; otherwise fails with the given message |
| Round.CheckParams | contracts/src/blackjack.cpp:16-23 | passes exactly when all three parameters are present, min ante <= max ante, and min ante <= deposit <= max payout; every failure is a check failure |
| Round.CheckBet | contracts/src/blackjack.cpp:25-29 | passes exactly when min ante <= ante <= max ante and the deposit is twice the ante |
| Round.DecisionOf | contracts/src/blackjack.cpp:121-139 | exactly the codes 0..4 are decisions; 0 is hit and 1 is stand |
| Round.AfterDecision | contracts/src/blackjack.cpp:121-136 | hit and stand move the round on; every other decision leaves it in require_play |
| Round.ActionStep | contracts/src/blackjack.cpp:103-145 | an accepted action is a bet or a play with one parameter; it never changes the cards; it creates a bet row exactly for a bet; its last request is for a seed |
| Round.InitialDeal | contracts/src/blackjack.cpp:31-52 | a deal gives the player two valid cards and the dealer one or two, and is never the dealer's win |
| Round.DealerHand | contracts/src/blackjack.cpp:71-79 | the dealer's hand starts with the open card, takes at most the whole deck, and weighs more than 16 |
| Round.Showdown | contracts/src/blackjack.cpp:80-91 | the showdown always decides; the dealer wins only with the heavier hand of at most 21, and a draw needs equal weights of at most 21 |
| Round.CDiv | contracts/src/blackjack.cpp:162 | C++ division of a non-negative amount is the floor quotient, and that of a negative amount the negated quotient of its magnitude, so it truncates toward zero (as in -3 * ante / 2, line 193) |
| Round.MainWin | contracts/src/blackjack.cpp:185-197 | the player's win lies between -(3 * ante / 2) and ante; it is never positive when the dealer wins and never negative otherwise |
| Round.RandomStep | contracts/src/blackjack.cpp:147-208 | a handled seed creates no bet row; it makes one or two requests, and exactly one when it finishes the game; the row either keeps its phase or returns to require_play |
| Round.DealerDraw | contracts/src/blackjack.cpp:75-79 | the dealer's loop extends the hand with deck[i], deck[i+1], ... in order and stops at the first hand weighing more than 16 |
| Round.CardAt | contracts/src/blackjack.cpp:33-34 | every card that is dealt successfully is one of the 52 valid cards |
| RoundProperties.CheckParamsAccepts | contracts/src/blackjack.cpp:7-23 | check_params reports the first failing check, with its message, in the order of the source |
| RoundProperties.CheckBetAccepts | contracts/src/blackjack.cpp:25-29 | check_bet reports the first failing bound, with its message: the minimum, then the maximum, then the deposit |
| RoundProperties.BetTransition | contracts/src/blackjack.cpp:105-117 | a bet succeeds exactly in require_bet with one parameter that passes check_bet; it creates the bet row, reserves 2 * deposit, moves to deal_cards and asks for a seed |
| RoundProperties.PlayTransition | contracts/src/blackjack.cpp:118-141 | a decision succeeds exactly in require_play with one known code; hit moves to deal_one_card, stand to finish, the other three leave the row unchanged; each asks for a seed |
| RoundProperties.OtherActionRejected | contracts/src/blackjack.cpp:142-144 | any other action type fails with "invalid action" |
| RoundProperties.SeedOnlyWhileDealing | contracts/src/blackjack.cpp:147-208 | a seed fails with "invalid game state" exactly in require_bet and require_play; no dealing failure carries that message |
| RoundProperties.CardAtFails | contracts/src/blackjack.cpp:33-34 | drawing a card fails only because the deck ran out or because the label is unknown |
| RoundProperties.InitialDealFails | contracts/src/blackjack.cpp:31-52 | the initial deal fails only because the deck ran out or because a label is unknown |
| RoundProperties.DealerDrawFails | contracts/src/blackjack.cpp:75-79 | the dealer's drawing fails only because the deck ran out or because a label is unknown |
| RoundProperties.UnimplementedDecisionStalls | contracts/src/blackjack.cpp:128-141 | insure, split and double_down leave the row in require_play, so the seed they ask for is rejected |
| RoundProperties.InitialDealShape | contracts/src/blackjack.cpp:31-52 | the player gets deck[0] and deck[1], the dealer deck[2]; deck[3] is dealt exactly when the player has 21, which settles the round, as a draw exactly when the dealer also has 21; the deal never goes to the dealer |
| RoundProperties.DealCardsStep | contracts/src/blackjack.cpp:150-169 | a blackjack deal finishes with the deposit (draw) or with deposit + 3 * ante / 2, showing every dealt card; otherwise the row keeps the player's two cards and the open card, waits for play, and shows 3 cards |
| RoundProperties.HitStep | contracts/src/blackjack.cpp:54-69 | a hit appends exactly deck[0] to the player's cards; a bust finishes with deposit - ante and shows the new card, otherwise the round returns to require_play |
| RoundProperties.DealerHandShape | contracts/src/blackjack.cpp:71-79 | the dealer's hand starts with the open card, continues with deck[0], deck[1], ... in order, weighs more than 16, and every shorter prefix weighs 16 or less |
| RoundProperties.DealerRunsOut | contracts/src/blackjack.cpp:77-79 | when every card left keeps the hand at 16 or less, the loop reads past the end of the deck and the event fails |
| RoundProperties.Draws | contracts/src/blackjack.cpp:78 | the cards deck[i..] as they would be drawn: one per remaining label |
| RoundProperties.ShowdownCases | contracts/src/blackjack.cpp:80-91 | a dealer's bust or a heavier player hand is the player's win, a heavier dealer hand the dealer's, equal weights a draw; the round never carries on |
| RoundProperties.SettlementAmounts | contracts/src/blackjack.cpp:185-197 | a player's win pays the ante and a draw pays nothing; a dealer's win costs the ante, or 3 * ante / 2 against a two-card 21 |
| RoundProperties.FinishStep | contracts/src/blackjack.cpp:183-204 | the finish seed pays the deposit plus the main win of the showdown and lists only the newly drawn cards, which are deck[0], deck[1], ... |
| RoundProperties.PayoutBounds | contracts/src/blackjack.cpp:114 | with the bet check_bet requires, every final payout lies between 0 and the 2 * deposit reserved as maximum win, and a finished round makes exactly one request |
| RoundProperties.ActionKeepsRowValid | contracts/src/blackjack.cpp:103-145 | an accepted action keeps the row well formed, and creates the bet row only when there was none |
| RoundProperties.SeedKeepsRowValid | contracts/src/blackjack.cpp:147-208 | a handled seed keeps the row well formed and creates no bet row |
| Contract.DeckCard | contracts/src/blackjack.cpp:33-34 | reading deck[i] and building its card is CardAt: out of range past the end, otherwise the label's parse |
| Contract.PushValues | contracts/src/blackjack.cpp:153-154 | the loop appends the codes of the cards, in order |
| Contract.Blackjack.Valid | contracts/src/blackjack.cpp:97-112 | a session has a bet row only when it has a state row that has left require_bet |
| Contract.Blackjack.constructor | contracts/include/blackjack/blackjack.hpp:13-14 | the contract starts with empty state and bet tables, which are well formed |
| Contract.Blackjack.HandleDealCards | contracts/src/blackjack.cpp:31-52 | the result is the initial deal, and the row stores the player's cards and the open card only when the round carries on |
| Contract.Blackjack.HandleDealOneCard | contracts/src/blackjack.cpp:54-69 | the row gains exactly deck[0]; the outcome is the dealer's exactly when the new weight exceeds 21 |
| Contract.Blackjack.HandleFinishGame | contracts/src/blackjack.cpp:71-92 | the drawing loop produces the dealer's hand, and the outcome is the showdown of the two hands |
| Contract.Blackjack.OnNewGame | contracts/src/blackjack.cpp:94-101 | a new game succeeds exactly when check_params passes; it asks for a bet and creates the row in require_bet |
| Contract.Blackjack.OnAction | contracts/src/blackjack.cpp:103-145 | an unknown session fails with "invalid ses_id"; otherwise the outcome and the new tables are those of the action's rules, and the tables stay well formed |
| Contract.Blackjack.OnRandom | contracts/src/blackjack.cpp:147-209 | an unknown session fails with "invalid ses_id"; otherwise the outcome and the new row are those of the seed's rules, the bet table is unchanged, and the tables stay well formed |
| Contract.Blackjack.DealCardsSeed | contracts/src/blackjack.cpp:150-169 | the deal_cards case of on_random commits exactly the seed's rules for that phase |
| Contract.Blackjack.DealOneCardSeed | contracts/src/blackjack.cpp:170-182 | the deal_one_card case commits exactly the seed's rules for that phase |
| Contract.Blackjack.FinishSeed | contracts/src/blackjack.cpp:183-205 | the finish case pays out exactly as the seed's rules say and leaves the tables as they were |

## Left out

- `card_game::get_weight` is not part of this model. The weight of a hand is a parameter (the `weight` field of the contract), and every property holds for any weight function. Soft and hard aces are therefore not modelled.
- `prepare_deck` is not part of this model either. The deck it derives from the seed and the row is an input: the sequence of labels it would return. How the seed shuffles the deck is not modelled.
- The game SDK is modelled as effects and parameters. `require_action`, `require_random`, `update_max_win`, `send_game_message` and `finish_game` become the requests a handler returns. `get_param_value` and `get_session` become a `Session` value passed with each event.
- Integer widths are not modelled. The uint64 parameters, the int64 asset amounts and the asset range checks are unbounded integers here. The one exception is the card's 32-bit code built from an int (`FromInt`).
- The `action`, `decision`, `game_state`, `outcome` and `param` enumerations are defined in none of the source files of this model. Their codes come from the tests instead:
  - bet = 0 comes from tests/blackjack_tests.cpp:39;
  - play = 1, with decision 5 rejected as "invalid decision", comes from line 153;
  - action type 2 rejected as "invalid action" comes from line 137.

  The decision codes 0..4 are taken in the order of the switch: hit, stand, insure, split, double_down.
- Cards.FromChars: a `char[3]` with no NUL is undefined behaviour in the source, because `std::string(s)` reads past the array. The model quotes all three characters in the error message instead (`Cards.CString`).
- `deck[k]` with `operator[]` past the end is undefined behaviour in C++. It is modelled as the same out-of-range failure that `deck.at(i)` throws.
- Contract.Blackjack.OnNewGame: requires that the session has no row yet. The platform opens each session once; a second `emplace` would fail.
- Contract.Blackjack.OnAction: requires both ante bounds to be configured on the bet path. `check_bet` dereferences the optional parameters without checking them.
- `on_finish` is empty, and the debug-only `pushlabels` action and the serialisation macros are not modelled.
- The test build skips the "invalid card" check and keeps code 52 for an unknown label. Only the production build is modelled; `Cards.LabelValue` gives the code the test build would keep.
- Insure, split and double_down are TODO in the source and change nothing. `RoundProperties.UnimplementedDecisionStalls` states what follows from that.
- A new row's dealer card is not set in the source. It is modelled as absent (`None`) until the deal.
- `get_rank` and `get_color` return `enum class` values. They are modelled as naturals: the rank index 0..12 and the colour index 0..3.
