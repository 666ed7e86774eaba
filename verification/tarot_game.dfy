/**
 * The reading session of the tarot mini-game: a reducer over the linear
 * lifecycle idle -> pastDrawn -> presentDrawn -> summary, and the signals
 * derived from it (smoke level, oracle expression, per-slot meanings).
 */
module TarotGame {
  import opened Wrappers
  import opened TarotCards

  datatype Phase = Idle | PastDrawn | PresentDrawn | FutureDrawn | Summary
  datatype Expression = Neutral | Smile | Sad | Smirk
  datatype SmokeLevel = A | B | C | D

  /** The random inputs of one fresh draw: a shuffle of the catalog and one coin per drawn card. */
  datatype Entropy = Entropy(order: seq<nat>, coins: seq<bool>)

  datatype Action = DrawPast | DrawPresent | DrawFuture | Reset(entropy: Entropy)

  datatype ReadingSummary = ReadingSummary(mood: Mood, text: string)

  /** The three timeline slots; `None` is a slot not yet drawn. */
  datatype DrawnCards = DrawnCards(past: Option<DrawnCard>, present: Option<DrawnCard>, future: Option<DrawnCard>) {
    function Get(slot: Slot): Option<DrawnCard> {
      match slot
      case Past => past
      case Present => present
      case Future => future
    }
  }

  datatype GameContext = GameContext(
    drawnCards: DrawnCards,
    phase: Phase,
    deck: seq<DrawnCard>,
    summary: Option<ReadingSummary>,
    expression: Expression)

  const NoCards := DrawnCards(None, None, None)

  /** Position of a phase in the lifecycle. */
  function PhaseRank(p: Phase): nat {
    match p
    case Idle => 0
    case PastDrawn => 1
    case PresentDrawn => 2
    case FutureDrawn => 3
    case Summary => 4
  }

  /** Slot N of the reading consumes deck position N - 1. */
  function SlotIndex(slot: Slot): nat {
    match slot
    case Past => 0
    case Present => 1
    case Future => 2
  }

  function SmokeRank(l: SmokeLevel): nat {
    match l
    case A => 0
    case B => 1
    case C => 2
    case D => 3
  }

  /** The smoke level shown for a phase: it rises with each draw and saturates once the reading is complete. */
  function SmokeLevelOf(p: Phase): (l: SmokeLevel)
    ensures SmokeRank(l) == Min(PhaseRank(p), 3)
  {
    match p
    case Idle => A
    case PastDrawn => B
    case PresentDrawn => C
    case FutureDrawn => D
    case Summary => D
  }

  /** The oracle's face for a completed reading: smile, smirk or sad, never the initial neutral face. */
  function ExpressionByMood(m: Mood): (e: Expression)
    ensures e != Expression.Neutral
    ensures (m == Positive <==> e == Smile) && (m == Mood.Neutral <==> e == Smirk) && (m == Negative <==> e == Sad)
  {
    match m
    case Positive => Smile
    case Neutral => Smirk
    case Negative => Sad
  }

  /** Distinct moods give distinct faces. */
  lemma ExpressionByMoodInjective(m1: Mood, m2: Mood)
    requires ExpressionByMood(m1) == ExpressionByMood(m2)
    ensures m1 == m2
  {
  }

  const HopefulText := "The path ahead glows with possibility."
  const CautionText := "Challenges gather—stay grounded and patient."
  const BalanceText := "Balance is in flux; discernment will steady you."

  /** The fixed summary sentence for each mood. */
  function SummaryText(m: Mood): (r: string)
    ensures (m == Positive <==> r == HopefulText) && (m == Negative <==> r == CautionText) && (m == Mood.Neutral <==> r == BalanceText)
  {
    match m
    case Positive => HopefulText
    case Negative => CautionText
    case Neutral => BalanceText
  }

  /** The summary sentence identifies the mood it was written for. */
  lemma SummaryTextInjective(m1: Mood, m2: Mood)
    requires SummaryText(m1) == SummaryText(m2)
    ensures m1 == m2
  {
    assert |HopefulText| == 38 && |CautionText| == 44 && |BalanceText| == 48;
  }

  /** The random inputs suit a fresh draw from the catalog. */
  predicate ValidEntropy(e: Entropy) {
    IsPermutationOf(e.order, CatalogSize) && |e.coins| >= 3
  }

  /** A brand-new session: idle, nothing drawn, and three pre-drawn cards (reversals allowed). */
  function InitialContext(e: Entropy): (s: GameContext)
    requires ValidEntropy(e)
    ensures s.phase == Idle && s.drawnCards == NoCards && s.summary == None && s.expression == Expression.Neutral
    ensures |s.deck| == 3
  {
    GameContext(NoCards, Idle, PickRandomCards(TarotDeck(), e.order, e.coins, true), None, Expression.Neutral)
  }

  /** `deck[i]`, or `None` where the source would read `undefined` past the end. */
  function DeckAt(deck: seq<DrawnCard>, i: nat): Option<DrawnCard> {
    if i < |deck| then Some(deck[i]) else None
  }

  /** The `canDrawPast` / `canDrawPresent` / `canDrawFuture` flags of the hook. */
  predicate CanDraw(s: GameContext, a: Action) {
    match a
    case DrawPast => s.phase == Idle
    case DrawPresent => s.phase == PastDrawn
    case DrawFuture => s.phase == PresentDrawn
    case Reset(_) => true
  }

  /** The slot a draw action fills. */
  function SlotOf(a: Action): Option<Slot> {
    match a
    case DrawPast => Some(Past)
    case DrawPresent => Some(Present)
    case DrawFuture => Some(Future)
    case Reset(_) => None
  }

  /**
   * The three draw cases of the reducer. A draw acts only in the phase right
   * before it and is a silent no-op otherwise. Completing the reading reads
   * all three deck cards, which the source would fail to do on a deck
   * shorter than three.
   */
  function Draw(s: GameContext, a: Action): (s': GameContext)
    requires !a.Reset?
    requires a.DrawFuture? && s.phase == PresentDrawn ==> |s.deck| >= 3
    // A draw is a no-op exactly when its flag is off.
    ensures s' == s <==> !CanDraw(s, a)
    // A legal draw advances the phase by one step (skipping the transient futureDrawn) ...
    ensures CanDraw(s, a) ==> s'.phase == (if a.DrawFuture? then Summary else if a.DrawPast? then PastDrawn else PresentDrawn)
    // ... fills its own slot from its own deck position ...
    ensures CanDraw(s, a) ==> s'.drawnCards.Get(SlotOf(a).value) == DeckAt(s.deck, SlotIndex(SlotOf(a).value))
    // ... and leaves the deck and every other slot alone.
    ensures s'.deck == s.deck
    ensures forall slot :: Some(slot) != SlotOf(a) ==> s'.drawnCards.Get(slot) == s.drawnCards.Get(slot)
    // Only completing the reading writes the summary and the expression.
    ensures a.DrawFuture? && CanDraw(s, a) ==>
      && s'.summary == Some(ReadingSummary(EvaluateReadingMood(s.deck[..3]), SummaryText(EvaluateReadingMood(s.deck[..3]))))
      && s'.expression == ExpressionByMood(EvaluateReadingMood(s.deck[..3]))
    ensures (a.DrawPast? || a.DrawPresent?) ==> s'.summary == s.summary && s'.expression == s.expression
  {
    match a
    case DrawPast =>
      if s.phase != Idle then s
      else s.(phase := PastDrawn, drawnCards := s.drawnCards.(past := DeckAt(s.deck, 0)))
    case DrawPresent =>
      if s.phase != PastDrawn then s
      else s.(phase := PresentDrawn, drawnCards := s.drawnCards.(present := DeckAt(s.deck, 1)))
    case DrawFuture =>
      if s.phase != PresentDrawn then s
      else
        var finalCards := [s.deck[0], s.deck[1], s.deck[2]];
        assert finalCards == s.deck[..3];
        var mood := EvaluateReadingMood(finalCards);
        s.(phase := Summary,
           drawnCards := s.drawnCards.(future := Some(s.deck[2])),
           summary := Some(ReadingSummary(mood, SummaryText(mood))),
           expression := ExpressionByMood(mood))
  }

  /** The reducer: reset replaces the session with a new one, every other action is a draw. */
  function Reduce(s: GameContext, a: Action): (s': GameContext)
    requires a.DrawFuture? && s.phase == PresentDrawn ==> |s.deck| >= 3
    requires a.Reset? ==> ValidEntropy(a.entropy)
    ensures a.Reset? ==> s' == InitialContext(a.entropy)
    ensures !a.Reset? ==> s' == Draw(s, a)
    // Whatever the action, the invariant-free facts of a session hold: a draw keeps the deck, a reset deals three cards.
    ensures a.Reset? ==> s'.phase == Idle && s'.drawnCards == NoCards && |s'.deck| == 3
    ensures !a.Reset? ==> s'.deck == s.deck && (s' == s <==> !CanDraw(s, a))
  {
    match a
    case Reset(e) => InitialContext(e)
    case _ => Draw(s, a)
  }

  /** The mood a completed reading of this deck has. */
  function DeckMood(s: GameContext): Mood
    requires |s.deck| == 3
  {
    EvaluateReadingMood(s.deck)
  }

  /**
   * The invariant of every session the game can reach: three cards with
   * distinct ids and non-empty meanings in the deck, slot N filled from deck position N - 1
   * exactly when the phase is past it, the summary and the expression fixed
   * by the deck's mood once the reading is complete, and no stop in the
   * transient futureDrawn phase.
   */
  ghost predicate Reachable(s: GameContext) {
    && |s.deck| == 3
    && (forall i :: 0 <= i < 3 ==> HasMeanings(s.deck[i].card.upright) && HasMeanings(s.deck[i].card.reversed))
    && (forall i, j :: 0 <= i < j < 3 ==> s.deck[i].card.id != s.deck[j].card.id)
    && s.phase != FutureDrawn
    && (forall slot :: s.drawnCards.Get(slot) == (if PhaseRank(s.phase) > SlotIndex(slot) then Some(s.deck[SlotIndex(slot)]) else None))
    && s.summary == (if s.phase == Summary then Some(ReadingSummary(DeckMood(s), SummaryText(DeckMood(s)))) else None)
    && s.expression == (if s.phase == Summary then ExpressionByMood(DeckMood(s)) else Expression.Neutral)
  }

  /** A fresh session is reachable. */
  lemma InitialContextReachable(e: Entropy)
    requires ValidEntropy(e)
    ensures Reachable(InitialContext(e))
  {
    TarotDeckWellFormed();
    DrawHasNoRepeats(TarotDeck(), e.order, e.coins, true);
    DrawComesFromDeck(TarotDeck(), e.order, e.coins, true);
    var s := InitialContext(e);
    forall i | 0 <= i < 3
      ensures HasMeanings(s.deck[i].card.upright) && HasMeanings(s.deck[i].card.reversed)
    {
      CatalogCardHasMeanings(s.deck[i].card);
    }
  }

  /** The session that completes a reading of `s`: the future slot filled, the summary and the face set by the deck's mood. */
  function Completed(s: GameContext): GameContext
    requires |s.deck| == 3
  {
    s.(phase := Summary,
       drawnCards := s.drawnCards.(future := Some(s.deck[2])),
       summary := Some(ReadingSummary(DeckMood(s), SummaryText(DeckMood(s)))),
       expression := ExpressionByMood(DeckMood(s)))
  }

  lemma {:induction false} CompletedReachable(s: GameContext)
    requires Reachable(s) && s.phase == PresentDrawn
    ensures Reachable(Completed(s))
  {
    var t := Completed(s);
    assert DeckMood(t) == DeckMood(s);
    forall slot
      ensures t.drawnCards.Get(slot) == (if PhaseRank(t.phase) > SlotIndex(slot) then Some(t.deck[SlotIndex(slot)]) else None)
    {
      if slot != Future {
        assert t.drawnCards.Get(slot) == s.drawnCards.Get(slot);
      }
    }
  }

  /** Completing the reading keeps a session reachable. */
  lemma DrawFuturePreservesReachable(s: GameContext)
    requires Reachable(s) && s.phase == PresentDrawn
    ensures Reachable(Reduce(s, DrawFuture))
  {
    assert s.deck[..3] == s.deck;
    assert Reduce(s, DrawFuture) == Completed(s);
    CompletedReachable(s);
  }

  /** Drawing the past or the present card keeps a session reachable. */
  lemma DrawEarlyPreservesReachable(s: GameContext, a: Action)
    requires Reachable(s) && (a.DrawPast? || a.DrawPresent?) && CanDraw(s, a)
    ensures Reachable(Reduce(s, a))
  {
    var s' := Reduce(s, a);
    forall slot
      ensures s'.drawnCards.Get(slot) == (if PhaseRank(s'.phase) > SlotIndex(slot) then Some(s'.deck[SlotIndex(slot)]) else None)
    {
      if Some(slot) != SlotOf(a) {
        assert s'.drawnCards.Get(slot) == s.drawnCards.Get(slot);
      }
    }
  }

  /** Every action keeps a session reachable. */
  lemma ReducePreservesReachable(s: GameContext, a: Action)
    requires Reachable(s)
    requires a.Reset? ==> ValidEntropy(a.entropy)
    ensures Reachable(Reduce(s, a))
  {
    if a.Reset? {
      InitialContextReachable(a.entropy);
    } else if CanDraw(s, a) {
      if a.DrawFuture? {
        DrawFuturePreservesReachable(s);
      } else {
        DrawEarlyPreservesReachable(s, a);
      }
    }
  }

  /** Every reset in a list of actions carries usable random inputs. */
  predicate ValidActions(actions: seq<Action>) {
    forall i :: 0 <= i < |actions| ==> (actions[i].Reset? ==> ValidEntropy(actions[i].entropy))
  }

  /** Dispatching a list of actions in order; every session on the way is reachable. */
  function Run(s: GameContext, actions: seq<Action>): (s': GameContext)
    requires Reachable(s)
    requires ValidActions(actions)
    ensures Reachable(s')
    decreases |actions|
  {
    if actions == [] then s
    else
      ReducePreservesReachable(s, actions[0]);
      Run(Reduce(s, actions[0]), actions[1..])
  }

  /** However the buttons are pressed, the game never rests in futureDrawn. */
  lemma FutureDrawnNeverReached(e: Entropy, actions: seq<Action>)
    requires ValidEntropy(e)
    requires ValidActions(actions)
    ensures Reachable(InitialContext(e)) && Run(InitialContext(e), actions).phase != FutureDrawn
  {
    InitialContextReachable(e);
  }

  /** Drawing past, present and future in order completes the reading with the deck's cards and mood. */
  lemma HappyPath(e: Entropy)
    requires ValidEntropy(e)
    ensures
      var s0 := InitialContext(e);
      var s3 := Reduce(Reduce(Reduce(s0, DrawPast), DrawPresent), DrawFuture);
      && s3.phase == Summary
      && s3.drawnCards == DrawnCards(Some(s0.deck[0]), Some(s0.deck[1]), Some(s0.deck[2]))
      && s3.summary.Some? && s3.summary.value.mood == EvaluateReadingMood(s0.deck)
      && s3.deck == s0.deck
  {
    var s0 := InitialContext(e);
    assert s0.deck[..3] == s0.deck;
  }

  /** A positive reading ends with a smile and the hopeful sentence. */
  lemma PositiveReadingSmiles(s: GameContext)
    requires Reachable(s) && s.phase == PresentDrawn
    requires EvaluateReadingMood(s.deck) == Positive
    ensures Reduce(s, DrawFuture).expression == Smile
    ensures Reduce(s, DrawFuture).summary.value.text == "The path ahead glows with possibility."
  {
    assert s.deck[..3] == s.deck;
  }

  /** The hook's per-slot meanings: the timeline meaning of each drawn slot. */
  function CardMeaning(cards: DrawnCards, slot: Slot): Option<string> {
    match cards.Get(slot)
    case Some(d) => Some(GetTimelineMeaning(d, slot))
    case None => None
  }

  /** In a reachable session a slot has a meaning exactly when it is drawn, and it is the meaning of its own deck card. */
  lemma CardMeaningReachable(s: GameContext, slot: Slot)
    requires Reachable(s)
    ensures CardMeaning(s.drawnCards, slot).Some? <==> PhaseRank(s.phase) > SlotIndex(slot)
    ensures CardMeaning(s.drawnCards, slot).Some? ==>
      CardMeaning(s.drawnCards, slot).value == GetTimelineMeaning(s.deck[SlotIndex(slot)], slot) != ""
  {
    if PhaseRank(s.phase) > SlotIndex(slot) {
      MeaningsNonEmpty(s.deck[SlotIndex(slot)], slot);
    }
  }
}
