# Spider and Klondike solitaire engine

A Dafny model of the rules-and-state engine of the Java solitaire
application inhin/Java-II-Solitaire. It covers two variants.

**Spider.** A game object holds:
- ten tableau piles, eight foundation piles and a stock;
- an undo deque of `Move` records;
- a move count and a score that starts at 500.

Its operations are `newGame`, `moveRun`, `dealRow`, `extractCompletedRuns`, `undo` and `isWin`. The legality checks are the predicates of `SpiderRules`.

**Klondike.** A game object deals seven columns of 1 to 7 cards and puts the remaining 24 on the stock. It has a win check and a move log. Its `undo` only reports whether the log is empty. The placement checks are the predicates of `KlondikeRules`.

How the model is built:
- **Cards.** A card is a value: suit, rank 1..13, face-up flag. The two Java `Card` classes, in the Spider and Klondike packages, declare the same class: only the constructor's error message differs, and the model passes the variant for that. So the module `Cards` serves both. `setFaceUp` becomes a new value stored in the slot that held the card.
- **Piles, moves and games are classes,** as in Java. A pile's card list, a move's flags, and a game's pile lists, deque and metrics are fields that the methods reassign.
- **Each Spider operation is proved against a function** of `SpiderState`. A game method ensures that the game's value `View()` afterwards equals that function applied to `old(View())`. For example, `ensures (View(), ok) == MoveRunOp(old(View()), ...)`.
- **The properties the engine promises are lemmas** about those functions, in `SpiderLayout`, `SpiderLaws` and `SpiderConservation`: the layout of a deal, the invariant, undo round trips and card conservation. Klondike follows the same plan with `KlondikeState`, `KlondikeLayout` and the class `KlondikeEngine.KlondikeGame`.
- **The shuffle is a parameter.** `Collections.shuffle(deck, new Random(seed))` becomes a function `shuffle(seed, deck)`, and `newGame` requires only that it returns a permutation of the deck.

Behaviours of the code that the model keeps as written, each with a lemma that exhibits it:
- **Extraction looks for the reverse of a legal run.** It looks for an Ace at the bottom and a King on top. `canMove` lets players build runs the other way round, so a legal run is never extracted (`SpiderLaws.MovableRunNeverExtracted`).
- **Spider `newGame` never clears the stock.** The old stock stays under the 50 new cards (`SpiderLayout.NewGameLayout`, `SpiderLayout.NewGameCounts`). A reused game therefore holds more than 104 cards. An extraction that then finds no empty foundation drops its 13 cards (`SpiderConservation.ExtractionWithoutRoomDropsBlock`).
- **`dealRow` can deal partially.** With 1 to 9 cards in the stock it deals them, pushes no record and returns false (`SpiderLaws.PartialDealRecordsNothing`).
- **Undo after a partial deal takes back the move before it.** The partial deal recorded nothing, so undo pops the dealt card off the destination column and pushes the move's cards back onto their source. The count of cards is kept but not the cards: one leaves play and another is on two columns (`SpiderConservation.UndoAfterPartialDealSwapsCards`).
- **Every undo adds 1 to the score.** So `dealRow` then `undo` costs 4 points (`SpiderLaws.DealRowThenUndo`).
- **Undoing an extraction never hides the card the extraction revealed** (`SpiderLaws.ExtractUndoLeavesCardRevealed`). The fields `flippedAfterExtract` and `foundationIndex` are set only through their setters and are never read.
- **Klondike `undo` changes nothing** (`KlondikeEngine.KlondikeGame.Undo` has no `modifies`).
- **Spider `addRun` has two branches that do the same thing.** Spider `flipTopUpIfNeeded` acts only on tableaux. The Klondike one acts on every pile.

Two comments in the source promise more than the code beside them does; the model follows the code:
- `src/main/java/solitaire/spider/engine/SpiderGame.java:149` says extraction looks for a run that builds King down to Ace. The test below it wants the Ace lowest in the column and the King on top (`SpiderLaws.CompletedBlockMeaning`, `SpiderLaws.MovableRunNeverExtracted`).
- `src/main/java/solitaire/klondike/engine/KlondikeGame.java:108` says the win check needs all four foundations to hold 13 cards. The loop below it checks only that no foundation holds fewer than 13. That also holds before the first `newGame`, when there are no foundations (`KlondikeLayout.WinBeforeNewGame`).

Files: `core.dfy` (pile roles), `util.dfy` (sequences and multisets), `card.dfy`, `spider_*.dfy`, `klondike_*.dfy`.

## Model

| member | source | states |
|---|---|---|
| Cards.NewCard | src/main/java/solitaire/spider/model/Card.java:24-29 | construction succeeds exactly for ranks 1..13, keeping suit, rank and flag; any other rank is an IllegalArgumentException with the variant's message ("rank 1..13" here, "Rank must be between 1 and 13" in the Klondike Card.java:24-31) |
| Cards.Card.SetFaceUp | src/main/java/solitaire/spider/model/Card.java:36-37 | after setFaceUp(b) the flag is b; suit and rank are unchanged |
| Cards.OneLowerMeaning | src/main/java/solitaire/spider/model/Card.java:40-42 | isOneLowerSameSuit(o) holds iff o is non-null, of the same suit and exactly one rank higher; it never holds both ways; null is refused (the Klondike Card.java:40-42 is the same) |
| Cards.OneLowerIrreflexive | src/main/java/solitaire/spider/model/Card.java:41 | no card is one lower than a card of equal rank |
| Cards.ToStringIdentifies | src/main/java/solitaire/spider/model/Card.java:45-48 | two cards print the same iff they have the same suit and rank: the name table and " of " separate the parts, and the flag is not printed (the Klondike Card.java:45-51 is the same) |
| Cards.RankNameMeaning | src/main/java/solitaire/spider/model/Card.java:46-47 | over every rank, the printed name is "A" exactly for 1, "J", "Q" and "K" exactly for 11, 12 and 13, and the decimal digits for 2 to 10 |
| SpiderPiles.FlippedTop | src/main/java/solitaire/spider/model/Pile.java:72-77 | only the top card may change; it becomes face-up only on a tableau; the pile is unchanged for any other role |
| SpiderPiles.Pile.constructor | src/main/java/solitaire/spider/model/Pile.java:29 | a new pile has the given role and no cards |
| SpiderPiles.Pile.Top | src/main/java/solitaire/spider/model/Pile.java:38 | null iff the pile is empty, otherwise the last card |
| SpiderPiles.Pile.Push | src/main/java/solitaire/spider/model/Pile.java:41 | the card becomes the new top |
| SpiderPiles.Pile.Pop | src/main/java/solitaire/spider/model/Pile.java:44 | on an empty pile it returns null and changes nothing; otherwise it removes and returns the last card |
| SpiderPiles.Pile.TakeTop | src/main/java/solitaire/spider/model/Pile.java:49-56 | the pop-and-insert-at-front loop returns the last `count` cards bottom to top, and the pile keeps the rest |
| SpiderPiles.Pile.AddRun | src/main/java/solitaire/spider/model/Pile.java:61-68 | both branches append the run in order |
| SpiderPiles.Pile.FlipTopUpIfNeeded | src/main/java/solitaire/spider/model/Pile.java:72-77 | the pile becomes FlippedTop of its role and old cards |
| SpiderPiles.TakeTopThenAddRun | src/main/java/solitaire/spider/model/Pile.java:49-68 | takeTop followed by addRun of its result gives back the pile |
| SpiderMoves.Move.constructor | src/main/java/solitaire/spider/model/Move.java:24-36 | the five arguments are stored; flippedAfterMove starts false, foundationIndex -1, flippedAfterExtract false |
| SpiderMoves.Move.SetFlippedAfterMove | src/main/java/solitaire/spider/model/Move.java:38-39 | changes that flag and nothing else |
| SpiderMoves.Move.SetFoundationIndex | src/main/java/solitaire/spider/model/Move.java:41-42 | changes the foundation index and nothing else |
| SpiderMoves.Move.SetFlippedAfterExtract | src/main/java/solitaire/spider/model/Move.java:44-45 | changes that flag and nothing else |
| SpiderRules.ScanRun | src/main/java/solitaire/spider/rules/SpiderRules.java:47-54 | the scan succeeds iff every card from index i up lies face-up, same suit, one rank below the face-up card beneath it |
| SpiderRules.CanMoveMeaning | src/main/java/solitaire/spider/rules/SpiderRules.java:34-65 | canMove holds iff 1 <= count <= size, the top `count` cards form a run (face-up, one suit, descending by one), and a non-empty destination shows a face-up card one rank above the run's head |
| SpiderRules.RunLinksAreOneLower | src/main/java/solitaire/spider/rules/SpiderRules.java:47-54 | inside an accepted run each card is isOneLowerSameSuit of the card it lies on |
| SpiderRules.EmptyDestinationAccepts | src/main/java/solitaire/spider/rules/SpiderRules.java:57 | an empty destination accepts every valid run |
| SpiderRules.DestinationSuitIgnored | src/main/java/solitaire/spider/rules/SpiderRules.java:59-64 | the destination top's suit does not change the answer |
| SpiderRules.NotOntoItself | src/main/java/solitaire/spider/rules/SpiderRules.java:34-65 | a pile can never move onto itself |
| SpiderRules.CanDeal | src/main/java/solitaire/spider/rules/SpiderRules.java:76-80 | true iff no tableau is empty |
| SpiderRules.WinMeansAllFull | src/main/java/solitaire/spider/rules/SpiderRules.java:85-91 | with eight foundations of at most 13 cards, 104 cards in all means every foundation holds 13 |
| SpiderState.FirstEmptyFrom | src/main/java/solitaire/spider/engine/SpiderGame.java:165-167 | the first empty foundation at or after i, or -1 when every one from i on holds cards |
| SpiderState.LastNonEmptyBelow | src/main/java/solitaire/spider/engine/SpiderGame.java:219-221 | the last non-empty foundation below n, or -1 when all are empty |
| SpiderLayout.SpiderDeckHalves | src/main/java/solitaire/spider/engine/SpiderGame.java:68-76 | the deck has 104 face-down cards made of two identical decks |
| SpiderLayout.SpiderDeckSuits | src/main/java/solitaire/spider/engine/SpiderGame.java:71-74 | in one-suit mode every card is SPADES; the first slot of each rank is SPADES in both modes |
| SpiderLayout.FourSuitHalfIsFullDeck | src/main/java/solitaire/spider/engine/SpiderGame.java:69-75 | in four-suit mode each half holds all 52 suit-rank pairs, each once |
| SpiderLayout.ShuffledFaceDown | src/main/java/solitaire/spider/engine/SpiderGame.java:77 | any permutation of the face-down deck is face-down |
| SpiderLayout.NewGameLayout | src/main/java/solitaire/spider/engine/SpiderGame.java:58-93 | columns 0-3 hold 6 cards and 4-9 hold 5, only each top face-up; eight empty foundations; the stock is the old stock followed by the deck's first 50 cards; empty log, no moves, score 500 |
| SpiderLayout.NewGameKeepsInv | src/main/java/solitaire/spider/engine/SpiderGame.java:58-93 | a new game satisfies the invariant |
| SpiderLayout.NewGameCounts | src/main/java/solitaire/spider/engine/SpiderGame.java:83-91 | 54 cards on the tableaux, none on the foundations, the old stock's size plus 104 in all |
| SpiderLayout.NewGameDealsDeck | src/main/java/solitaire/spider/engine/SpiderGame.java:83-91 | the cards in play are exactly the old stock's and the deck's |
| SpiderLayout.ColumnsHoldDeck | src/main/java/solitaire/spider/engine/SpiderGame.java:83-87 | the first n columns hold the last cards of the deck that the deal took for them |
| SpiderLaws.MoveRunSucceedsIff | src/main/java/solitaire/spider/engine/SpiderGame.java:100-103 | moveRun returns true iff canMove accepts; a refused move changes nothing |
| SpiderLaws.MoveRunKeepsInv | src/main/java/solitaire/spider/engine/SpiderGame.java:100-128 | moveRun keeps the invariant: well-shaped piles, foundations empty or full with the full ones first, a face-down stock, well-formed records, a count of at least 0 |
| SpiderLaws.ExtractUpToKeepsInv | src/main/java/solitaire/spider/engine/SpiderGame.java:151-172 | every prefix of the extraction loop keeps the invariant |
| SpiderLaws.ExtractUpToLog | src/main/java/solitaire/spider/engine/SpiderGame.java:151-172 | extraction only adds records, and adds none exactly when it changes nothing |
| SpiderLaws.UndoMoveTableaux | src/main/java/solitaire/spider/engine/SpiderGame.java:183-205 | undoing the record of a move restores both columns exactly, face-up flags included |
| SpiderLaws.MoveRunThenUndo | src/main/java/solitaire/spider/engine/SpiderGame.java:179-232 | right after a moveRun that extracted nothing, undo gives back the state before it, metrics included, and returns true |
| SpiderLaws.DealRowSucceedsIff | src/main/java/solitaire/spider/engine/SpiderGame.java:133-147 | dealRow returns true iff no tableau is empty and the stock holds at least ten cards |
| SpiderLaws.EmptyStockDealChangesNothing | src/main/java/solitaire/spider/engine/SpiderGame.java:133-138 | with an empty stock, dealRow returns false and changes nothing |
| SpiderLaws.DealRowKeepsInv | src/main/java/solitaire/spider/engine/SpiderGame.java:133-147 | dealRow keeps the invariant, whether it is refused, partial or full |
| SpiderLaws.PartialDealRecordsNothing | src/main/java/solitaire/spider/engine/SpiderGame.java:136-138 | with 1 to 9 stock cards, each goes face-up onto one of the first columns, the stock empties, and no record, count or score changes; the result is false |
| SpiderLaws.DealRowThenUndo | src/main/java/solitaire/spider/engine/SpiderGame.java:208-213 | right after a full deal that extracted nothing, undo returns the ten cards face-down to the stock in their order; only the score differs, by -4 |
| SpiderLaws.UndoSucceedsIff | src/main/java/solitaire/spider/engine/SpiderGame.java:179-180 | undo returns true iff the log is non-empty; on an empty log nothing changes |
| SpiderLaws.UndoMetrics | src/main/java/solitaire/spider/engine/SpiderGame.java:230 | a successful undo pops one record, sets the count to max(0, count - 1) and adds 1 to the score, whatever it undoes |
| SpiderLaws.UndoKeepsInv | src/main/java/solitaire/spider/engine/SpiderGame.java:179-232 | undo keeps the invariant |
| SpiderLaws.UndoExtractKeepsFoundations | src/main/java/solitaire/spider/engine/SpiderGame.java:218-224 | draining the last non-empty foundation keeps the full foundations a prefix |
| SpiderLaws.MovableRunNeverExtracted | src/main/java/solitaire/spider/engine/SpiderGame.java:160-162 | a 13-card run that canMove would accept never passes extraction's test |
| SpiderLaws.CompletedBlockMeaning | src/main/java/solitaire/spider/engine/SpiderGame.java:157-162 | extraction's test holds iff the 13 cards share a suit and rise from Ace to King |
| SpiderLaws.ExtractedBlockReturns | src/main/java/solitaire/spider/engine/SpiderGame.java:218-224 | the foundation an extraction filled is the one undo drains, and draining it restores the foundations |
| SpiderLaws.ExtractThenUndo | src/main/java/solitaire/spider/engine/SpiderGame.java:216-228 | undo right after an extraction puts the block back on its column with the foundations restored |
| SpiderLaws.ExtractUndoLeavesCardRevealed | src/main/java/solitaire/spider/engine/SpiderGame.java:216-228 | the face-down card an extraction revealed stays face-up after undo, so the column differs from before |
| SpiderLaws.WinIffFoundationsFull | src/main/java/solitaire/spider/engine/SpiderGame.java:176 | in a started game, isWin holds iff all eight foundations hold 13 cards |
| SpiderConservation.EmptyFoundationExists | src/main/java/solitaire/spider/engine/SpiderGame.java:165-167 | with at most 104 cards in play, a column of 13 or more leaves a foundation empty |
| SpiderConservation.ExtractionWithoutRoomDropsBlock | src/main/java/solitaire/spider/engine/SpiderGame.java:165-167 | with no empty foundation, an extraction leaves the foundations unchanged and 13 cards leave play |
| SpiderConservation.ExtractUpToConserves | src/main/java/solitaire/spider/engine/SpiderGame.java:151-172 | with at most 104 cards in play, extraction keeps the multiset of cards (suit and rank) |
| SpiderConservation.MoveRunConserves | src/main/java/solitaire/spider/engine/SpiderGame.java:114-126 | moveRun keeps the multiset of cards |
| SpiderConservation.DealRowConserves | src/main/java/solitaire/spider/engine/SpiderGame.java:133-147 | dealRow, full or partial, keeps the multiset of cards |
| SpiderConservation.UndoDealConserves | src/main/java/solitaire/spider/engine/SpiderGame.java:208-213 | undo of a deal keeps the multiset of cards |
| SpiderConservation.UndoConservesCount | src/main/java/solitaire/spider/engine/SpiderGame.java:179-232 | undo keeps the number of cards in play when the piles named by the record still hold its cards |
| SpiderConservation.UndoAfterPartialDealSwapsCards | src/main/java/solitaire/spider/engine/SpiderGame.java:183-192 | after moveRun and a partial dealRow (lines 136-138, no record), undo pops the dealt card off the move's destination and pushes the move's payload back: on the example game the card count is kept but an Ace of clubs leaves play and a five of spades is on two columns |
| SpiderEngine.BuildDeck | src/main/java/solitaire/spider/engine/SpiderGame.java:68-76 | the nested loops build exactly SpiderDeck(oneSuit) |
| SpiderEngine.DealOpening | src/main/java/solitaire/spider/engine/SpiderGame.java:84-86 | the inner deal loop pops the column's cards off the end of the deck and turns the top face-up |
| SpiderEngine.ScanBlock | src/main/java/solitaire/spider/engine/SpiderGame.java:157-161 | the loop with break accepts iff each of the 13 cards steps up by one in the same suit |
| SpiderEngine.PopTimes | src/main/java/solitaire/spider/engine/SpiderGame.java:189 | n pops remove up to n top cards |
| SpiderEngine.PushAll | src/main/java/solitaire/spider/engine/SpiderGame.java:192 | pushing each card of the run appends the run in order |
| SpiderEngine.RestoreSource | src/main/java/solitaire/spider/engine/SpiderGame.java:195-204 | the source's top turned up, and the card below the run turned down when the record says a card was revealed |
| SpiderEngine.SpiderGame.constructor | src/main/java/solitaire/spider/engine/SpiderGame.java:35-54 | a fresh game: no piles in the lists, empty stock and log, no moves, score 500 |
| SpiderEngine.SpiderGame.IsWin | src/main/java/solitaire/spider/engine/SpiderGame.java:176 | true iff the game was dealt and all eight foundations hold 13 cards |
| SpiderEngine.SpiderGame.NewGame | src/main/java/solitaire/spider/engine/SpiderGame.java:58-93 | the game ends as SpiderState.NewGame of its old stock and the shuffled deck |
| SpiderEngine.SpiderGame.MoveRun | src/main/java/solitaire/spider/engine/SpiderGame.java:100-128 | the game and the result are MoveRunOp of the old game |
| SpiderEngine.SpiderGame.DealRow | src/main/java/solitaire/spider/engine/SpiderGame.java:133-147 | the game and the result are DealRowOp of the old game |
| SpiderEngine.SpiderGame.DealCards | src/main/java/solitaire/spider/engine/SpiderGame.java:136-142 | the loop deals the stock's top cards face-up to columns 0.. in turn and stops early when the stock runs out |
| SpiderEngine.SpiderGame.ExtractCompletedRuns | src/main/java/solitaire/spider/engine/SpiderGame.java:151-172 | the game becomes ExtractAll of the old game |
| SpiderEngine.SpiderGame.ExtractColumn | src/main/java/solitaire/spider/engine/SpiderGame.java:153-170 | one pass of the loop: ExtractAt of the old game on that column |
| SpiderEngine.SpiderGame.PlaceBlock | src/main/java/solitaire/spider/engine/SpiderGame.java:165-167 | the block is added to the first empty foundation, or nowhere |
| SpiderEngine.SpiderGame.Undo | src/main/java/solitaire/spider/engine/SpiderGame.java:179-232 | the game and the result are UndoOp of the old game |
| SpiderEngine.SpiderGame.UndoMove | src/main/java/solitaire/spider/engine/SpiderGame.java:183-205 | the move branch of undo: UndoMoveRun of the old game and the record |
| SpiderEngine.SpiderGame.UndoDeal | src/main/java/solitaire/spider/engine/SpiderGame.java:208-213 | the deal branch of undo: columns 9 down to 0 each give their top card face-down to the stock |
| SpiderEngine.SpiderGame.UndoExtraction | src/main/java/solitaire/spider/engine/SpiderGame.java:216-228 | the extraction branch of undo: UndoExtract of the old game and the record |
| SpiderEngine.SpiderGame.LastNonEmptyFoundation | src/main/java/solitaire/spider/engine/SpiderGame.java:219-221 | the downward search returns the last non-empty foundation, or -1 |
| KlondikePiles.TopTurnedUp | src/main/java/solitaire/klondike/model/Pile.java:75-82 | only the top card may change and it ends face-up; an empty pile or a face-up top is left as it is |
| KlondikePiles.Pile.constructor | src/main/java/solitaire/klondike/model/Pile.java:28-34 | getType returns the role given; the pile starts empty |
| KlondikePiles.Pile.GetTopCard | src/main/java/solitaire/klondike/model/Pile.java:44-46 | null iff the pile is empty, otherwise the last card |
| KlondikePiles.Pile.Push | src/main/java/solitaire/klondike/model/Pile.java:48-50 | the card becomes the new top |
| KlondikePiles.Pile.Pop | src/main/java/solitaire/klondike/model/Pile.java:52-54 | on an empty pile it returns null and changes nothing; otherwise it removes and returns the last card |
| KlondikePiles.Pile.TopRun | src/main/java/solitaire/klondike/model/Pile.java:57-59 | the last `count` cards, which complete the rest of the pile |
| KlondikePiles.Pile.TakeTop | src/main/java/solitaire/klondike/model/Pile.java:62-67 | returns what topRun would have returned, and the pile keeps the rest |
| KlondikePiles.Pile.AddRun | src/main/java/solitaire/klondike/model/Pile.java:70-72 | appends the run in order |
| KlondikePiles.Pile.FlipTopUpIfNeeded | src/main/java/solitaire/klondike/model/Pile.java:75-82 | the pile becomes TopTurnedUp of its old cards, whatever its role |
| KlondikePiles.TakeTopThenAddRun | src/main/java/solitaire/klondike/model/Pile.java:62-72 | takeTop followed by addRun of its result gives back the pile |
| KlondikeMoves.Move.constructor | src/main/java/solitaire/klondike/model/Move.java:29-43 | the five arguments are stored; flippedAfterMove starts false |
| KlondikeMoves.Move.SetFlippedAfterMove | src/main/java/solitaire/klondike/model/Move.java:52-53 | changes that flag and nothing else |
| KlondikeRules.NullRefused | KlondikeRules.java:26-50 | a null card is refused by both predicates |
| KlondikeRules.RedSuits | KlondikeRules.java:64-69 | a card is red iff it is HEARTS or DIAMONDS |
| KlondikeRules.FlagsIgnored | KlondikeRules.java:26-50 | neither predicate depends on any face-up flag |
| KlondikeRules.FoundationBuiltInOrder | KlondikeRules.java:40-50 | a pile built only by accepted foundation placements is exactly a same-suit run from the Ace up, and back |
| KlondikeRules.FoundationAtMostThirteen | KlondikeRules.java:47-49 | such a foundation holds at most 13 cards, a King at position 13 |
| KlondikeRules.TableauBuiltInOrder | KlondikeRules.java:26-35 | a pile built only by accepted tableau placements is exactly a King-headed run descending by one with alternating colours, and back |
| KlondikeRules.TableauAtMostThirteen | KlondikeRules.java:26-35 | such a tableau holds at most 13 cards |
| KlondikeLayout.DeckCards | src/main/java/solitaire/klondike/engine/KlondikeGame.java:98-106 | buildDeck gives 52 face-down cards, each suit-rank pair once |
| KlondikeLayout.DealtLayout | src/main/java/solitaire/klondike/engine/KlondikeGame.java:55-94 | column col holds col + 1 cards with only the last face-up (28 in all); four empty foundations; 24 face-down stock cards; empty log, no moves, score 500 |
| KlondikeLayout.DealtConserves | src/main/java/solitaire/klondike/engine/KlondikeGame.java:78-93 | the deal puts every card of the deck on the table, each once |
| KlondikeLayout.StockInDeckOrder | src/main/java/solitaire/klondike/engine/KlondikeGame.java:89-93 | the stock is the deck's last 24 cards in deck order |
| KlondikeLayout.ShuffledDeal | src/main/java/solitaire/klondike/engine/KlondikeGame.java:72-93 | for any shuffle of buildDeck's deck, the table holds the 52 cards of the deck |
| KlondikeLayout.WinBeforeNewGame | src/main/java/solitaire/klondike/engine/KlondikeGame.java:109-116 | isWin holds before any newGame, when there are no foundations |
| KlondikeLayout.NoWinAfterDeal | src/main/java/solitaire/klondike/engine/KlondikeGame.java:109-116 | isWin is false right after newGame |
| KlondikeLayout.WinIsCompleteSuits | src/main/java/solitaire/klondike/engine/KlondikeGame.java:109-116 | a win reached through canPlaceOnFoundation means every foundation is Ace to King of one suit |
| KlondikeEngine.BuildDeck | src/main/java/solitaire/klondike/engine/KlondikeGame.java:98-106 | the nested loops build the deck suit by suit, rank 1 to 13, face-down |
| KlondikeEngine.DealColumn | src/main/java/solitaire/klondike/engine/KlondikeGame.java:80-85 | the inner loop pushes the deck's next col + 1 cards, only the last face-up |
| KlondikeEngine.KlondikeGame.constructor | src/main/java/solitaire/klondike/engine/KlondikeGame.java:38-45 | a fresh game: no piles in the lists, empty stock and log, no moves, score 500 |
| KlondikeEngine.KlondikeGame.NewGame | src/main/java/solitaire/klondike/engine/KlondikeGame.java:55-94 | whatever the game held, it ends as the deal of the shuffled deck |
| KlondikeEngine.KlondikeGame.Reset | src/main/java/solitaire/klondike/engine/KlondikeGame.java:56-69 | everything cleared, metrics reset, then seven fresh empty tableaux and four fresh empty foundations |
| KlondikeEngine.KlondikeGame.DealColumns | src/main/java/solitaire/klondike/engine/KlondikeGame.java:78-86 | the outer deal loop lays out the seven columns of the deal and stops at deck position 28 |
| KlondikeEngine.KlondikeGame.DealStock | src/main/java/solitaire/klondike/engine/KlondikeGame.java:89-93 | the rest of the deck goes onto the stock face-down, in order |
| KlondikeEngine.KlondikeGame.IsWin | src/main/java/solitaire/klondike/engine/KlondikeGame.java:109-116 | the scan with early return is true iff no foundation has fewer than 13 cards |
| KlondikeEngine.KlondikeGame.RegisterMove | src/main/java/solitaire/klondike/engine/KlondikeGame.java:127-130 | the record goes on top of the log and the count rises by one; the score and the piles are unchanged |
| KlondikeEngine.KlondikeGame.Undo | src/main/java/solitaire/klondike/engine/KlondikeGame.java:132-135 | returns false iff the log is empty, and changes nothing |

## Left out

- Shuffling and seeding are not modelled. `Collections.shuffle` with `java.util.Random` is a library call, so `newGame` takes the shuffle as a function and requires only that it permutes the deck. The seedless `newGame()` of both games seeds from `System.nanoTime` or `System.currentTimeMillis`, and clocks are not modelled.
- The user interface is not modelled: the JavaFX views, controllers and board factories, and the `GameEvents` sink. So is the Pyramid game, which keeps its state in JavaFX nodes and its undo in closures. Nor is the reading of the rules and hints text files.
- Card identity is not modelled. A Java card is an object, so `setFaceUp` on a card reaches every list that holds it, including a `Move` payload. The model's cards are values, so a payload is a snapshot of the cards when the record was made.
- Klondike `topRun` returns a live `subList` view of the pile. The model returns a copy.
- The `GameRules` interface that `SpiderRules` implements is a module of predicates, not an interface.
- `afterMove` is not modelled: its body is empty.
- Plain field reads are not separate members: `getCards`, `getMoveCount`, `getScore`, `isFaceUp`, `getSuit`, `getRank` and the `Move` getters. They are read off the fields and `View()`.
- The Klondike `Suit` file is not part of this model. Its four constants are taken to be those of the Spider `Suit`, in the same order, which fixes the order of `buildDeck`.
- moveCount and score are unbounded integers. Java's 32-bit `int` would wrap only after about two billion moves.
- SpiderPiles.Pile.TakeTop: requires count <= size. With a larger count, the Java loop empties the pile and pads its result with nulls.
- KlondikePiles.Pile.TakeTop: requires count <= size. Java throws IndexOutOfBoundsException otherwise. KlondikePiles.Pile.TopRun has the same requirement.
- SpiderEngine.SpiderGame.MoveRun: requires tableau indexes in range and a game that has been dealt. Otherwise `tableaux.get` throws, and exceptions are not modelled. SpiderEngine.SpiderGame.ExtractCompletedRuns likewise requires a dealt game.
- SpiderConservation.ExtractUpToConserves: requires at most 104 cards in play. With more, which a reused game can have, an extraction may drop its block (see ExtractionWithoutRoomDropsBlock). SpiderConservation.MoveRunConserves and SpiderConservation.DealRowConserves carry the same bound, because both end with an extraction pass.
- SpiderConservation.UndoConservesCount: requires that the piles named by the latest record still hold its cards, and promises the number of cards only. Undo does not keep the card multiset in general: after a partial deal, undo of a move swaps the dealt card for a copy of the moved one (UndoAfterPartialDealSwapsCards). The multiset is kept by undo of a deal (UndoDealConserves). When undo directly follows its operation, undo of a move restores the exact earlier state (MoveRunThenUndo), and undo of an extraction gives back the block and the foundations (ExtractThenUndo).
