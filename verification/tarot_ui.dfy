/**
 * The tarot panel's view logic: the headline and button label for each
 * phase, the one button each phase offers, which card slot is highlighted,
 * and whether the copy area shows the summary or the list of slots.
 */
module TarotUI {
  import opened Wrappers
  import opened TarotCards
  import opened TarotGame

  /** The callbacks the panel can wire to its call-to-action button. */
  datatype Handler = OnDrawPast | OnDrawPresent | OnDrawFuture | OnReset

  /** The stage headline above the button. */
  function PrimaryCopy(p: Phase): (copy: string)
    ensures copy != ""
    ensures copy == "Reading complete" <==> PhaseRank(p) >= 3
  {
    match p
    case Idle => "Draw the Past card to start"
    case PastDrawn => "Reveal the Present insight"
    case PresentDrawn => "Draw the Future card to complete the reading"
    case FutureDrawn => "Reading complete"
    case Summary => "Reading complete"
  }

  /** The label of the call-to-action button. */
  function ActionLabel(p: Phase): (caption: string)
    ensures caption != ""
  {
    match p
    case Idle => "Draw Past"
    case PastDrawn => "Draw Present"
    case PresentDrawn => "Draw Future"
    case FutureDrawn => "Summarize"
    case Summary => "Draw Again"
  }

  /** The handler behind the call-to-action button; the transient futureDrawn phase shows no button. */
  function Cta(p: Phase): (h: Option<Handler>)
    ensures h.None? <==> p == FutureDrawn
  {
    match p
    case Idle => Some(OnDrawPast)
    case PastDrawn => Some(OnDrawPresent)
    case PresentDrawn => Some(OnDrawFuture)
    case FutureDrawn => None
    case Summary => Some(OnReset)
  }

  /** The reducer action a handler dispatches; reset draws with the given random inputs. */
  function ActionOf(h: Handler, e: Entropy): Action {
    match h
    case OnDrawPast => DrawPast
    case OnDrawPresent => DrawPresent
    case OnDrawFuture => DrawFuture
    case OnReset => Reset(e)
  }

  /** Whether a slot is highlighted as the next one to fill. */
  predicate IsActive(slot: Slot, p: Phase) {
    || (slot == Past && p == Idle)
    || (slot == Present && p == PastDrawn)
    || (slot == Future && p == PresentDrawn)
  }

  /** At most one slot is highlighted, and none once the reading is complete. */
  lemma AtMostOneActiveSlot(p: Phase, s1: Slot, s2: Slot)
    requires IsActive(s1, p) && IsActive(s2, p)
    ensures s1 == s2 && p != Summary && p != FutureDrawn
  {
  }

  /** The button a phase offers is always one whose reducer action is not a no-op. */
  lemma CtaIsEnabled(s: GameContext, e: Entropy)
    requires Reachable(s) && ValidEntropy(e)
    requires Cta(s.phase).Some?
    ensures CanDraw(s, ActionOf(Cta(s.phase).value, e))
  {
  }

  /** A legal draw fills exactly its own slot: the one slot that was empty before and is drawn after. */
  lemma {:induction false} DrawFillsOwnSlot(s: GameContext, a: Action, slot: Slot)
    requires Reachable(s) && !a.Reset? && CanDraw(s, a)
    ensures s.drawnCards.Get(slot).None? && Reduce(s, a).drawnCards.Get(slot).Some? <==> SlotOf(a) == Some(slot)
  {
    if SlotOf(a) == Some(slot) {
      assert s.drawnCards.Get(slot) == None;
    }
  }

  /**
   * In a reachable session the highlighted slot is exactly the slot that
   * the offered button's action fills: empty before, drawn after.
   */
  lemma {:induction false} ActiveSlotIsFilledByCta(s: GameContext, e: Entropy, slot: Slot)
    requires Reachable(s) && ValidEntropy(e)
    ensures IsActive(slot, s.phase) <==>
      && Cta(s.phase).Some?
      && s.drawnCards.Get(slot).None?
      && Reduce(s, ActionOf(Cta(s.phase).value, e)).drawnCards.Get(slot).Some?
  {
    if s.phase == Summary {
      assert Reduce(s, Reset(e)).drawnCards == NoCards;
    } else if s.phase != FutureDrawn {
      DrawFillsOwnSlot(s, ActionOf(Cta(s.phase).value, e), slot);
    }
  }

  /** One line of the slot list: the slot's label, its text, and whether it is shown as drawn. */
  datatype SlotLine = SlotLine(caption: string, text: string, visible: bool)

  /** The copy area: the summary when there is one, otherwise a line per slot. */
  datatype CopyPanel = SummaryPanel(moodLine: string, text: string) | SlotList(lines: seq<SlotLine>)

  const Awaiting := "Awaiting draw..."

  function SlotLabel(slot: Slot): string {
    match slot
    case Past => "Past"
    case Present => "Present"
    case Future => "Future"
  }

  function MoodName(m: Mood): string {
    match m
    case Positive => "positive"
    case Neutral => "neutral"
    case Negative => "negative"
  }

  /** A slot line shows its meaning, or the placeholder when the meaning is absent or empty. */
  function LineFor(cards: DrawnCards, slot: Slot): (line: SlotLine)
    ensures line.caption == SlotLabel(slot)
    ensures line.visible <==> cards.Get(slot).Some?
    ensures line.text == Awaiting || Some(line.text) == CardMeaning(cards, slot)
  {
    var meaning := CardMeaning(cards, slot);
    SlotLine(SlotLabel(slot), if meaning.Some? && meaning.value != "" then meaning.value else Awaiting, cards.Get(slot).Some?)
  }

  function RenderCopy(cards: DrawnCards, summary: Option<ReadingSummary>): (panel: CopyPanel)
    ensures panel.SummaryPanel? <==> summary.Some?
    ensures panel.SlotList? ==> |panel.lines| == 3
  {
    match summary
    case Some(sm) => SummaryPanel("Overall mood: " + MoodName(sm.mood), sm.text)
    case None => SlotList([LineFor(cards, Past), LineFor(cards, Present), LineFor(cards, Future)])
  }

  /**
   * In a reachable session the summary replaces the slot list exactly in
   * the summary phase, and before that every drawn slot shows its own
   * meaning while every other slot awaits its draw.
   */
  lemma RenderCopyReachable(s: GameContext)
    requires Reachable(s)
    ensures RenderCopy(s.drawnCards, s.summary).SummaryPanel? <==> s.phase == Summary
    ensures s.phase != Summary ==>
      forall i :: 0 <= i < 3 ==>
        var slot := [Past, Present, Future][i];
        RenderCopy(s.drawnCards, s.summary).lines[i].text ==
          (if PhaseRank(s.phase) > i then GetTimelineMeaning(s.deck[i], slot) else Awaiting)
  {
    CardMeaningReachable(s, Past);
    CardMeaningReachable(s, Present);
    CardMeaningReachable(s, Future);
  }
}
