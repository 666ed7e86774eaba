/**
 * The tarot card catalog and the reading engine of the tarot mini-game:
 * drawing three cards with an orientation each, tallying the mood of a
 * reading, and looking up the meaning of a drawn card for a timeline slot.
 */
module TarotCards {
  import opened Wrappers
  import opened Counting

  datatype Arcana = Major | Minor
  datatype Suit = Wands | Cups | Swords | Pentacles
  datatype Mood = Positive | Neutral | Negative
  datatype Orientation = Upright | Reversed
  datatype Slot = Past | Present | Future

  /** The interpretation of a card in one orientation. */
  datatype MeaningBlock = MeaningBlock(meaningPast: string, meaningPresent: string, meaningFuture: string, mood: Mood)

  datatype Card = Card(
    id: string,
    name: string,
    arcana: Arcana,
    suit: Option<Suit>,
    keywords: seq<string>,
    upright: MeaningBlock,
    reversed: MeaningBlock)

  /** A catalog card together with the orientation it was drawn in. */
  datatype DrawnCard = DrawnCard(card: Card, orientation: Orientation)

  /** Catalog invariants: unique ids, a suit exactly on the minor arcana, and no empty meaning text. */
  ghost predicate WellFormedCatalog(deck: seq<Card>) {
    && (forall i, j :: 0 <= i < j < |deck| ==> deck[i].id != deck[j].id)
    && (forall i :: 0 <= i < |deck| ==> (deck[i].arcana == Minor <==> deck[i].suit.Some?))
    && (forall i :: 0 <= i < |deck| ==> HasMeanings(deck[i].upright) && HasMeanings(deck[i].reversed))
  }

  predicate HasMeanings(b: MeaningBlock) {
    b.meaningPast != "" && b.meaningPresent != "" && b.meaningFuture != ""
  }

  const CatalogSize := 6

  /** The static card catalog, in the source's order. */
  function TarotDeck(): (deck: seq<Card>)
    ensures |deck| == CatalogSize
  {
    [Fool, HighPriestess, Death, AceOfCups, TenOfSwords, SixOfWands]
  }

  /** The catalog satisfies its invariants. */
  lemma TarotDeckWellFormed()
    ensures WellFormedCatalog(TarotDeck())
  {
    CatalogIdsUnique();
    CatalogSuitsMatchArcana();
    CatalogMeaningsNonEmpty();
  }

  /** No two catalog cards share an id: the ids differ in length or in their second letter. */
  lemma CatalogIdsUnique()
    ensures forall i, j :: 0 <= i < j < |TarotDeck()| ==> TarotDeck()[i].id != TarotDeck()[j].id
  {
    var deck := TarotDeck();
    assert |deck[0].id| == 13 && |deck[1].id| == 23 && |deck[2].id| == 14;
    assert |deck[3].id| == 14 && |deck[4].id| == 16 && |deck[5].id| == 15;
    assert deck[2].id[1] == 'a' && deck[3].id[1] == 'i';
  }

  lemma CatalogSuitsMatchArcana()
    ensures forall i :: 0 <= i < |TarotDeck()| ==> (TarotDeck()[i].arcana == Minor <==> TarotDeck()[i].suit.Some?)
  {
  }

  lemma CatalogMeaningsNonEmpty()
    ensures forall i :: 0 <= i < |TarotDeck()| ==> HasMeanings(TarotDeck()[i].upright) && HasMeanings(TarotDeck()[i].reversed)
  {
  }

  const Fool := Card("major-00-fool", "The Fool", Major, None, ["potential", "journey", "risk"],
      MeaningBlock(
        "A fearless leap in your past set this entire arc in motion.",
        "Stay curious; a light heart keeps today’s path fluid.",
        "A doorway opens if you travel lightly and trust yourself.",
        Positive),
      MeaningBlock(
        "Impulsive choices left loose threads behind.",
        "Check your footing—enthusiasm needs a little grounding.",
        "Pause before you leap or you may miss a crucial cue.",
        Neutral))

  const HighPriestess := Card("major-02-high-priestess", "The High Priestess", Major, None, ["intuition", "mystery", "inner voice"],
      MeaningBlock(
        "You heeded a whisper others couldn’t hear.",
        "Listen inward; truth arrives in stillness.",
        "Secrets reveal themselves when you stay receptive.",
        Positive),
      MeaningBlock(
        "A quiet warning was ignored, blurring hindsight.",
        "Noise drowns intuition. Reduce inputs to find clarity.",
        "Hidden knowledge stays veiled until you align with it.",
        Neutral))

  const Death := Card("major-13-death", "Death", Major, None, ["ending", "rebirth", "transition"],
      MeaningBlock(
        "You shed something heavy to reclaim energy.",
        "Metamorphosis is underway—cooperate with it.",
        "Rebirth arrives after the last thread is released.",
        Neutral),
      MeaningBlock(
        "Clinging delayed an inevitable ending.",
        "Stagnation sets in if you keep resisting change.",
        "A gentle push will be required to move ahead.",
        Negative))

  const AceOfCups := Card("minor-cups-ace", "Ace of Cups", Minor, Some(Cups), ["emotion", "intuition", "offer"],
      MeaningBlock(
        "A heartfelt opening in the past colors today’s hope.",
        "Compassion overflows—share the feeling.",
        "Expect new connection or inspiration to bloom.",
        Positive),
      MeaningBlock(
        "Unspoken feelings created quiet distance.",
        "Emotions need tending before they spill over.",
        "Love appears but only if you unclog the channel.",
        Neutral))

  const TenOfSwords := Card("minor-swords-ten", "Ten of Swords", Minor, Some(Swords), ["closure", "release", "overwhelm"],
      MeaningBlock(
        "A hard stop forced you to reinvent.",
        "The worst is cresting—exhale and let it pass.",
        "Clear skies appear once you accept the ending.",
        Negative),
      MeaningBlock(
        "You avoided rock bottom but healing still lingers.",
        "Slowly rise; small motions rebuild strength.",
        "Recovery accelerates if you practice compassion.",
        Neutral))

  const SixOfWands := Card("minor-wands-six", "Six of Wands", Minor, Some(Wands), ["victory", "recognition", "momentum"],
      MeaningBlock(
        "Past wins taught you how to celebrate progress.",
        "Spotlight energy surrounds you—own it.",
        "Momentum carries you into a public triumph.",
        Positive),
      MeaningBlock(
        "Recognition was delayed, breeding quiet doubt.",
        "You may be chasing external approval over truth.",
        "Realign intent so the right audience notices.",
        Neutral))

  // ---------------------------------------------------------------------------
  // Drawing
  // ---------------------------------------------------------------------------

  function Min(a: int, b: int): int {
    if a <= b then a else b
  }

  /** `order` lists every position of a deck of `n` cards exactly once. */
  predicate IsPermutationOf(order: seq<nat>, n: nat) {
    && |order| == n
    && (forall i :: 0 <= i < n ==> order[i] < n)
    && (forall i, j :: 0 <= i < j < n ==> order[i] != order[j])
  }

  /** The deck rearranged by `order`: position `i` of the result holds card `order[i]`. */
  function Shuffle<T>(deck: seq<T>, order: seq<nat>): (shuffled: seq<T>)
    requires IsPermutationOf(order, |deck|)
    ensures |shuffled| == |deck|
    ensures forall i :: 0 <= i < |deck| ==> shuffled[i] == deck[order[i]]
  {
    seq(|deck|, i requires 0 <= i < |deck| => deck[order[i]])
  }

  /** The orientation one coin gives a card; without reversals every card is upright. */
  function OrientationFor(allowReversed: bool, coin: bool): Orientation {
    if allowReversed && coin then Reversed else Upright
  }

  /**
   * Draw the first three cards of a shuffle of the deck. The shuffle
   * (`order`) and the per-card coin flips (`coins`) stand for the random
   * source; the result has as many cards as the deck allows, up to three.
   */
  function PickRandomCards(deck: seq<Card>, order: seq<nat>, coins: seq<bool>, allowReversed: bool): (draws: seq<DrawnCard>)
    requires IsPermutationOf(order, |deck|)
    requires |coins| >= Min(3, |deck|)
    ensures |draws| == Min(3, |deck|)
    ensures forall i :: 0 <= i < |draws| ==> draws[i].card == deck[order[i]]
    ensures forall i :: 0 <= i < |draws| ==> draws[i].orientation == OrientationFor(allowReversed, coins[i])
  {
    var taken := Shuffle(deck, order)[..Min(3, |deck|)];
    seq(|taken|, i requires 0 <= i < |taken| => DrawnCard(taken[i], OrientationFor(allowReversed, coins[i])))
  }

  /** No card repeats within a draw: draws come from distinct deck positions, so their ids differ. */
  lemma DrawHasNoRepeats(deck: seq<Card>, order: seq<nat>, coins: seq<bool>, allowReversed: bool)
    requires IsPermutationOf(order, |deck|)
    requires |coins| >= Min(3, |deck|)
    requires WellFormedCatalog(deck)
    ensures var draws := PickRandomCards(deck, order, coins, allowReversed);
      forall i, j :: 0 <= i < j < |draws| ==> draws[i].card.id != draws[j].card.id
  {
    var draws := PickRandomCards(deck, order, coins, allowReversed);
    forall i, j | 0 <= i < j < |draws|
      ensures draws[i].card.id != draws[j].card.id
    {
      var p, q := order[i], order[j];
      assert p != q;
      if p < q {
        assert deck[p].id != deck[q].id;
      } else {
        assert deck[q].id != deck[p].id;
      }
    }
  }

  /** Every drawn card is a catalog card. */
  lemma DrawComesFromDeck(deck: seq<Card>, order: seq<nat>, coins: seq<bool>, allowReversed: bool)
    requires IsPermutationOf(order, |deck|)
    requires |coins| >= Min(3, |deck|)
    ensures var draws := PickRandomCards(deck, order, coins, allowReversed);
      forall i :: 0 <= i < |draws| ==> draws[i].card in deck
  {
  }

  /** With reversals switched off every card is drawn upright, whatever the coins say. */
  lemma NoReversalsMeansUpright(deck: seq<Card>, order: seq<nat>, coins: seq<bool>)
    requires IsPermutationOf(order, |deck|)
    requires |coins| >= Min(3, |deck|)
    ensures var draws := PickRandomCards(deck, order, coins, false);
      forall i :: 0 <= i < |draws| ==> draws[i].orientation == Upright
  {
  }

  // ---------------------------------------------------------------------------
  // Mood of a reading
  // ---------------------------------------------------------------------------

  /** Each mood's weight in the tally. */
  function MoodWeight(m: Mood): (w: int)
    ensures -1 <= w <= 1
    ensures (w > 0 <==> m == Positive) && (w < 0 <==> m == Negative)
  {
    match m
    case Positive => 1
    case Neutral => 0
    case Negative => -1
  }

  /** The meaning block selected by the card's orientation. */
  function Block(d: DrawnCard): MeaningBlock {
    match d.orientation
    case Upright => d.card.upright
    case Reversed => d.card.reversed
  }

  /** The mood a drawn card contributes to a reading. */
  function ResolvedMood(d: DrawnCard): Mood {
    Block(d).mood
  }

  /**
   * The running total of mood weights, accumulated left to right as the
   * source's `reduce` does. It is the number of positive cards minus the
   * number of negative ones.
   */
  function MoodTotal(cards: seq<DrawnCard>): (total: int)
    ensures total == CountBy(cards, ResolvedMood, Positive) - CountBy(cards, ResolvedMood, Negative)
  {
    if cards == [] then 0
    else
      var init, last := cards[..|cards| - 1], cards[|cards| - 1];
      assert cards == init + [last];
      CountBySnoc(init, last, ResolvedMood, Positive);
      CountBySnoc(init, last, ResolvedMood, Negative);
      MoodTotal(init) + MoodWeight(ResolvedMood(last))
  }

  /** The overall mood: the sign of the total. Positive and negative cards that cancel out read as neutral. */
  function EvaluateReadingMood(cards: seq<DrawnCard>): (m: Mood)
    ensures m == Positive <==> CountBy(cards, ResolvedMood, Positive) > CountBy(cards, ResolvedMood, Negative)
    ensures m == Negative <==> CountBy(cards, ResolvedMood, Positive) < CountBy(cards, ResolvedMood, Negative)
    ensures cards == [] ==> m == Neutral
  {
    var total := MoodTotal(cards);
    if total > 0 then Positive
    else if total < 0 then Negative
    else Neutral
  }

  /** The order of the cards does not matter to the overall mood. */
  lemma EvaluateReadingMoodOrderFree(a: seq<DrawnCard>, b: seq<DrawnCard>)
    requires multiset(a) == multiset(b)
    ensures EvaluateReadingMood(a) == EvaluateReadingMood(b)
  {
    CountByPermutation(a, b, ResolvedMood, Positive);
    CountByPermutation(a, b, ResolvedMood, Negative);
  }

  /** Two positive cards outweigh one negative card. */
  lemma TwoPositivesOutweighOneNegative(a: DrawnCard, b: DrawnCard, c: DrawnCard)
    requires ResolvedMood(a) == Positive && ResolvedMood(b) == Positive && ResolvedMood(c) == Negative
    ensures EvaluateReadingMood([a, b, c]) == Positive
  {
    assert MoodTotal([a, b, c]) == 1 by {
      assert [a, b, c][..2] == [a, b];
      assert [a, b][..1] == [a];
      assert [a][..0] == [];
    }
  }

  // ---------------------------------------------------------------------------
  // Meanings
  // ---------------------------------------------------------------------------

  /** The meaning text of a drawn card for a timeline slot, from the block its orientation selects. */
  function GetTimelineMeaning(d: DrawnCard, slot: Slot): (text: string)
    ensures text in {Block(d).meaningPast, Block(d).meaningPresent, Block(d).meaningFuture}
    ensures slot == Past ==> text == (if d.orientation == Upright then d.card.upright else d.card.reversed).meaningPast
    ensures slot == Present ==> text == (if d.orientation == Upright then d.card.upright else d.card.reversed).meaningPresent
    ensures slot == Future ==> text == (if d.orientation == Upright then d.card.upright else d.card.reversed).meaningFuture
  {
    var block := Block(d);
    match slot
    case Past => block.meaningPast
    case Present => block.meaningPresent
    case Future => block.meaningFuture
  }

  /** A catalog card has non-empty meanings in both orientations. */
  lemma CatalogCardHasMeanings(c: Card)
    requires c in TarotDeck()
    ensures HasMeanings(c.upright) && HasMeanings(c.reversed)
  {
    TarotDeckWellFormed();
    var deck := TarotDeck();
    var i :| 0 <= i < |deck| && deck[i] == c;
  }

  /** A card with non-empty meanings has a non-empty meaning for every slot. */
  lemma MeaningsNonEmpty(d: DrawnCard, slot: Slot)
    requires HasMeanings(d.card.upright) && HasMeanings(d.card.reversed)
    ensures GetTimelineMeaning(d, slot) != ""
  {
  }
}
