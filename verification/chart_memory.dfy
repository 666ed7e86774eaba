/**
 * The chart memory game: six face-down cards, two of each chart type,
 * shuffled by Fisher-Yates; the player flips two at a time and, after a
 * short delay, a matching pair stays face up while a mismatch turns back.
 * The delayed resolution is an explicit second step (`Fire`), and the timer
 * it waits on is part of the game state.
 */
module ChartMemory {
  import opened Wrappers
  import opened Counting

  datatype ChartKind = LineChart | BarChart | ScatterPlot

  /** The chart types of the icon table, in order. */
  const Icons: seq<ChartKind> := [LineChart, BarChart, ScatterPlot]
  const TotalPairs := 3

  function KindLabel(k: ChartKind): string {
    match k
    case LineChart => "Line Chart"
    case BarChart => "Bar Chart"
    case ScatterPlot => "Scatter Plot"
  }

  function KindIcon(k: ChartKind): string {
    match k
    case LineChart => "📈"
    case BarChart => "📊"
    case ScatterPlot => "🟣"
  }

  /** Labels tell chart types apart, so comparing labels is comparing kinds. */
  lemma KindLabelInjective(k1: ChartKind, k2: ChartKind)
    requires KindLabel(k1) == KindLabel(k2)
    ensures k1 == k2
  {
  }

  /** A card; its label and icon are those of its chart kind. */
  datatype MemoryCard = MemoryCard(id: string, kind: ChartKind, flipped: bool, matched: bool)

  function KindOf(c: MemoryCard): ChartKind { c.kind }
  function MatchedOf(c: MemoryCard): bool { c.matched }
  function MatchedKind(c: MemoryCard): (bool, ChartKind) { (c.matched, c.kind) }
  function IdOf(c: MemoryCard): string { c.id }

  function Digit(n: nat): char
    requires n < 10
  {
    ('0' as int + n) as char
  }

  /** The id `<label>-<position>` given to the card at a position of the duplicated list. */
  function IdFor(k: ChartKind, idx: nat): (id: string)
    requires idx < 10
    ensures |id| > 0 && id[|id| - 1] == Digit(idx)
  {
    KindLabel(k) + "-" + [Digit(idx)]
  }

  /** The icon table written out twice, every card face down and unmatched. */
  function Duplicated(): (cards: seq<MemoryCard>)
    ensures |cards| == 2 * |Icons|
    ensures forall i :: 0 <= i < |cards| ==> cards[i].kind == Icons[i % 3] && !cards[i].flipped && !cards[i].matched
    ensures forall i, j :: 0 <= i < j < |cards| ==> cards[i].id != cards[j].id
  {
    var cards := seq(6, i requires 0 <= i < 6 => MemoryCard(IdFor(Icons[i % 3], i), Icons[i % 3], false, false));
    assert forall i, j :: 0 <= i < j < 6 ==> cards[i].id[|cards[i].id| - 1] != cards[j].id[|cards[j].id| - 1];
    cards
  }

  /**
   * Fisher-Yates: for i from the last position down to 1, swap position i
   * with position `picks[i]`, a number in [0, i] that stands for
   * `Math.floor(Math.random() * (i + 1))`. The result is a permutation.
   */
  method FisherYates<T>(a: seq<T>, picks: seq<nat>) returns (r: seq<T>)
    requires |picks| == |a|
    requires forall i :: 0 < i < |a| ==> picks[i] <= i
    ensures |r| == |a|
    ensures multiset(r) == multiset(a)
  {
    r := a;
    var i := |a| - 1;
    while i > 0
      invariant i < |a|
      invariant |r| == |a|
      invariant multiset(r) == multiset(a)
    {
      var j := picks[i];
      r := r[i := r[j]][j := r[i]];
      i := i - 1;
    }
  }

  /** Items with distinct keys keep distinct keys when reordered. */
  lemma DistinctKeysPermutation<T, K>(a: seq<T>, b: seq<T>, key: T -> K)
    requires multiset(a) == multiset(b)
    requires forall i, j :: 0 <= i < j < |a| ==> key(a[i]) != key(a[j])
    ensures forall i, j :: 0 <= i < j < |b| ==> key(b[i]) != key(b[j])
  {
    forall i, j | 0 <= i < j < |b|
      ensures key(b[i]) != key(b[j])
    {
      if key(b[i]) == key(b[j]) {
        var k := key(b[i]);
        CountByAtLeastTwo(b, i, j, key);
        CountByPermutation(a, b, key, k);
        CountByDistinctAtMostOne(a, key, k);
        assert false;
      }
    }
  }

  lemma {:induction false} CountByAtLeastTwo<T, K>(s: seq<T>, i: nat, j: nat, key: T -> K)
    requires i < j < |s| && key(s[i]) == key(s[j])
    ensures CountBy(s, key, key(s[i])) >= 2
  {
    var k := key(s[i]);
    assert s == s[..j] + s[j..];
    CountByAppend(s[..j], s[j..], key, k);
    assert s[..j][i] == s[i];
    assert s[j..][0] == s[j];
  }

  lemma {:induction false} CountByDistinctAtMostOne<T, K>(s: seq<T>, key: T -> K, k: K)
    requires forall i, j :: 0 <= i < j < |s| ==> key(s[i]) != key(s[j])
    ensures CountBy(s, key, k) <= 1
  {
    if s != [] {
      CountByDistinctAtMostOne(s[1..], key, k);
      if key(s[0]) == k {
        assert forall i :: 0 <= i < |s[1..]| ==> key(s[1..][i]) != k by {
          forall i | 0 <= i < |s[1..]|
            ensures key(s[1..][i]) != k
          {
            assert s[1..][i] == s[i + 1];
          }
        }
      }
    }
  }

  /** A board fresh from a shuffle: six face-down unmatched cards with distinct ids, two of each kind. */
  ghost predicate FreshBoard(cards: seq<MemoryCard>) {
    && |cards| == 6
    && (forall k :: CountBy(cards, KindOf, k) == 2)
    && (forall i :: 0 <= i < |cards| ==> !cards[i].flipped && !cards[i].matched)
    && (forall i, j :: 0 <= i < j < |cards| ==> cards[i].id != cards[j].id)
  }

  lemma DuplicatedIsFresh()
    ensures FreshBoard(Duplicated())
  {
    var d := Duplicated();
    assert d[0].kind == LineChart && d[1].kind == BarChart && d[2].kind == ScatterPlot;
    assert d[3].kind == LineChart && d[4].kind == BarChart && d[5].kind == ScatterPlot;
    forall k
      ensures CountBy(d, KindOf, k) == 2
    {
      CountBySix(d, KindOf, k);
      assert KindOf(d[0]) == KindOf(d[3]) == LineChart;
      assert KindOf(d[1]) == KindOf(d[4]) == BarChart;
      assert KindOf(d[2]) == KindOf(d[5]) == ScatterPlot;
      match k {
        case LineChart =>
        case BarChart =>
        case ScatterPlot =>
      }
    }
  }

  /** The duplicated icon table, shuffled. */
  method DuplicateAndShuffle(picks: seq<nat>) returns (cards: seq<MemoryCard>)
    requires |picks| == 6
    requires forall i :: 0 < i < 6 ==> picks[i] <= i
    ensures FreshBoard(cards)
    ensures multiset(cards) == multiset(Duplicated())
  {
    var d := Duplicated();
    cards := FisherYates(d, picks);
    DuplicatedIsFresh();
    forall k
      ensures CountBy(cards, KindOf, k) == 2
    {
      CountByPermutation(d, cards, KindOf, k);
    }
    forall i | 0 <= i < |cards|
      ensures !cards[i].flipped && !cards[i].matched
    {
      assert cards[i] in multiset(d);
    }
    DistinctKeysPermutation(d, cards, IdOf);
  }

  // ---------------------------------------------------------------------------
  // Play
  // ---------------------------------------------------------------------------

  /** The pending resolution scheduled when a second card is opened, with the label comparison it captured. */
  datatype Pending = Pending(first: nat, second: nat, sameLabel: bool)

  datatype Game = Game(cards: seq<MemoryCard>, openIdx: seq<nat>, moves: nat, busy: bool, timer: Option<Pending>)

  function NewGame(cards: seq<MemoryCard>): Game {
    Game(cards, [], 0, false, None)
  }

  /** Every opened position is on the board. */
  predicate OpenedOnBoard(g: Game) {
    forall i :: 0 <= i < |g.openIdx| ==> g.openIdx[i] < |g.cards|
  }

  /**
   * A click on a card. Ignored while a pair is being resolved or when the
   * card is already face up or matched; otherwise the card turns face up
   * and joins the opened list, and opening the second card counts a move,
   * blocks further clicks and schedules the resolution.
   */
  function HandleFlip(g: Game, index: nat): (g': Game)
    requires index < |g.cards| && OpenedOnBoard(g)
    ensures g.busy || g.cards[index].flipped || g.cards[index].matched ==> g' == g
    ensures !(g.busy || g.cards[index].flipped || g.cards[index].matched) ==>
      && |g'.cards| == |g.cards|
      && (forall i :: 0 <= i < |g.cards| && i != index ==> g'.cards[i] == g.cards[i])
      && g'.cards[index] == g.cards[index].(flipped := true)
      && g'.openIdx == g.openIdx + [index]
      && (|g.openIdx| == 1 ==> g'.moves == g.moves + 1 && g'.busy && g'.timer.Some?)
      && (|g.openIdx| != 1 ==> g'.moves == g.moves && g'.busy == g.busy && g'.timer == g.timer)
  {
    if g.busy then g
    else if g.cards[index].flipped || g.cards[index].matched then g
    else
      var nextCards := g.cards[index := g.cards[index].(flipped := true)];
      var nextOpened := g.openIdx + [index];
      if |nextOpened| == 2 then
        var first, second := nextOpened[0], nextOpened[1];
        var same := KindLabel(nextCards[first].kind) == KindLabel(nextCards[second].kind);
        Game(nextCards, nextOpened, g.moves + 1, true, Some(Pending(first, second, same)))
      else
        Game(nextCards, nextOpened, g.moves, g.busy, g.timer)
  }

  /**
   * The delayed resolution: a pair whose labels matched when it was opened
   * is marked matched, any other pair is turned face down; then the opened
   * list is cleared and clicks are accepted again. It acts on whatever
   * cards are on the board when it fires.
   */
  function Fire(g: Game): (g': Game)
    requires g.timer.Some? && g.timer.value.first < |g.cards| && g.timer.value.second < |g.cards|
    ensures g'.openIdx == [] && !g'.busy && g'.timer.None? && g'.moves == g.moves
    ensures |g'.cards| == |g.cards|
    ensures forall i :: 0 <= i < |g.cards| && i != g.timer.value.first && i != g.timer.value.second ==> g'.cards[i] == g.cards[i]
    ensures forall i :: i in {g.timer.value.first, g.timer.value.second} ==>
      g'.cards[i] == (if g.timer.value.sameLabel then g.cards[i].(matched := true) else g.cards[i].(flipped := false))
  {
    var p := g.timer.value;
    var cs := g.cards;
    var cards :=
      if p.sameLabel then cs[p.first := cs[p.first].(matched := true)][p.second := cs[p.second].(matched := true)]
      else cs[p.first := cs[p.first].(flipped := false)][p.second := cs[p.second].(flipped := false)];
    Game(cards, [], g.moves, false, None)
  }

  /** Reset: a freshly shuffled board, no moves, nothing opened, and the pending resolution cancelled. */
  function ResetGame(g: Game, board: seq<MemoryCard>): (g': Game)
    ensures g'.cards == board && g'.openIdx == [] && g'.moves == 0 && !g'.busy && g'.timer.None?
  {
    NewGame(board)
  }

  /** Reset as the source writes it: the board is replaced but a pending resolution still fires later. */
  function ResetAsWritten(g: Game, board: seq<MemoryCard>): (g': Game)
    ensures g'.cards == board && g'.openIdx == [] && g'.moves == 0 && !g'.busy && g'.timer == g.timer
  {
    Game(board, [], 0, false, g.timer)
  }

  /** Number of matched cards. */
  function MatchedCount(cards: seq<MemoryCard>): nat {
    CountBy(cards, MatchedOf, true)
  }

  /**
   * The game invariant: six cards, two of each kind; matched cards come in
   * whole same-kind pairs; the opened list holds exactly the face-up
   * unmatched cards, at most two and without repeats; and a resolution is
   * pending exactly when two cards are open, carrying their positions and
   * whether their labels agree.
   */
  ghost predicate TwoOfEachKind(cards: seq<MemoryCard>) {
    forall k :: CountBy(cards, KindOf, k) == 2
  }

  ghost predicate MatchedInPairs(cards: seq<MemoryCard>) {
    forall k :: CountBy(cards, MatchedKind, (true, k)) == 0 || CountBy(cards, MatchedKind, (true, k)) == 2
  }

  ghost predicate Inv(g: Game) {
    && |g.cards| == 6
    && TwoOfEachKind(g.cards)
    && MatchedInPairs(g.cards)
    && |g.openIdx| <= 2
    && (forall i :: 0 <= i < |g.openIdx| ==> g.openIdx[i] < 6 && g.cards[g.openIdx[i]].flipped && !g.cards[g.openIdx[i]].matched)
    && (|g.openIdx| == 2 ==> g.openIdx[0] != g.openIdx[1])
    && (forall i :: 0 <= i < 6 && g.cards[i].flipped && !g.cards[i].matched ==> i in g.openIdx)
    && (g.busy <==> |g.openIdx| == 2)
    && (g.timer.Some? <==> g.busy)
    && (g.busy ==> g.timer.value == Pending(g.openIdx[0], g.openIdx[1], g.cards[g.openIdx[0]].kind == g.cards[g.openIdx[1]].kind))
  }

  lemma NewGameInv(board: seq<MemoryCard>)
    requires FreshBoard(board)
    ensures Inv(NewGame(board))
  {
    forall k
      ensures CountBy(board, MatchedKind, (true, k)) == 0
    {
    }
  }

  /** Replacing a card by one with the same kind and matched flag changes no count the invariant uses. */
  lemma SameKeysSameCounts(cs: seq<MemoryCard>, i: nat, v: MemoryCard)
    requires i < |cs| && v.kind == cs[i].kind && v.matched == cs[i].matched
    ensures forall k :: CountBy(cs[i := v], KindOf, k) == CountBy(cs, KindOf, k)
    ensures forall k :: CountBy(cs[i := v], MatchedKind, (true, k)) == CountBy(cs, MatchedKind, (true, k))
    ensures TwoOfEachKind(cs) ==> TwoOfEachKind(cs[i := v])
    ensures MatchedInPairs(cs) ==> MatchedInPairs(cs[i := v])
  {
    var cs' := cs[i := v];
    forall k
      ensures CountBy(cs', KindOf, k) == CountBy(cs, KindOf, k)
      ensures CountBy(cs', MatchedKind, (true, k)) == CountBy(cs, MatchedKind, (true, k))
    {
      CountByUpdate(cs, i, v, KindOf, k);
      CountByUpdate(cs, i, v, MatchedKind, (true, k));
    }
    if TwoOfEachKind(cs) {
      forall k
        ensures CountBy(cs', KindOf, k) == 2
      {
        assert CountBy(cs, KindOf, k) == 2;
      }
    }
    if MatchedInPairs(cs) {
      forall k
        ensures CountBy(cs', MatchedKind, (true, k)) == 0 || CountBy(cs', MatchedKind, (true, k)) == 2
      {
        assert CountBy(cs, MatchedKind, (true, k)) == 0 || CountBy(cs, MatchedKind, (true, k)) == 2;
      }
    }
  }

  lemma HandleFlipPreservesInv(g: Game, index: nat)
    requires Inv(g) && index < |g.cards|
    ensures Inv(HandleFlip(g, index))
  {
    if !(g.busy || g.cards[index].flipped || g.cards[index].matched) {
      var g' := HandleFlip(g, index);
      assert g'.cards == g.cards[index := g.cards[index].(flipped := true)];
      SameKeysSameCounts(g.cards, index, g.cards[index].(flipped := true));
      assert index !in g.openIdx;
      if |g.openIdx| == 1 {
        if g'.cards[g'.openIdx[0]].kind == g'.cards[g'.openIdx[1]].kind {
        } else {
          assert KindLabel(g'.cards[g'.openIdx[0]].kind) != KindLabel(g'.cards[g'.openIdx[1]].kind) by {
            if KindLabel(g'.cards[g'.openIdx[0]].kind) == KindLabel(g'.cards[g'.openIdx[1]].kind) {
              KindLabelInjective(g'.cards[g'.openIdx[0]].kind, g'.cards[g'.openIdx[1]].kind);
            }
          }
        }
      }
      forall i | 0 <= i < 6 && g'.cards[i].flipped && !g'.cards[i].matched
        ensures i in g'.openIdx
      {
        if i != index {
          assert g.cards[i] == g'.cards[i];
        }
      }
    }
  }

  lemma FirePreservesInv(g: Game)
    requires Inv(g) && g.timer.Some?
    ensures Inv(Fire(g))
  {
    if g.timer.value.sameLabel {
      FireMatchPreservesCounts(g);
    } else {
      FireMismatchPreservesCounts(g);
    }
    var g' := Fire(g);
    var f, s := g.timer.value.first, g.timer.value.second;
    forall i | 0 <= i < 6
      ensures !(g'.cards[i].flipped && !g'.cards[i].matched)
    {
      if i != f && i != s {
        assert g'.cards[i] == g.cards[i];
        assert g.cards[i].flipped && !g.cards[i].matched ==> i in g.openIdx;
      }
    }
  }

  /** Marking an open same-kind pair matched keeps two of each kind and matched cards in pairs. */
  lemma FireMatchPreservesCounts(g: Game)
    requires Inv(g) && g.timer.Some? && g.timer.value.sameLabel
    ensures TwoOfEachKind(Fire(g).cards) && MatchedInPairs(Fire(g).cards)
  {
    var p := g.timer.value;
    var cs := g.cards;
    var f, s := p.first, p.second;
    var k := cs[f].kind;
    var c1 := cs[f := cs[f].(matched := true)];
    var c2 := c1[s := cs[s].(matched := true)];
    assert Fire(g).cards == c2;
    forall k'
      ensures CountBy(c2, KindOf, k') == 2
    {
      CountByUpdate(cs, f, cs[f].(matched := true), KindOf, k');
      CountByUpdate(c1, s, cs[s].(matched := true), KindOf, k');
    }
    forall k'
      ensures CountBy(c2, MatchedKind, (true, k')) == 0 || CountBy(c2, MatchedKind, (true, k')) == 2
    {
      CountByUpdate(cs, f, cs[f].(matched := true), MatchedKind, (true, k'));
      CountByUpdate(c1, s, cs[s].(matched := true), MatchedKind, (true, k'));
      if k' == k {
        CountBySubsumed(c2, MatchedKind, (true, k), KindOf, k);
      }
    }
  }

  /** Turning an open pair face down changes no kind or matched count. */
  lemma FireMismatchPreservesCounts(g: Game)
    requires Inv(g) && g.timer.Some? && !g.timer.value.sameLabel
    ensures TwoOfEachKind(Fire(g).cards) && MatchedInPairs(Fire(g).cards)
  {
    var p := g.timer.value;
    var cs := g.cards;
    var f, s := p.first, p.second;
    var c1 := cs[f := cs[f].(flipped := false)];
    assert Fire(g).cards == c1[s := cs[s].(flipped := false)];
    SameKeysSameCounts(cs, f, cs[f].(flipped := false));
    SameKeysSameCounts(c1, s, cs[s].(flipped := false));
  }

  lemma ResetGamePreservesInv(g: Game, board: seq<MemoryCard>)
    requires FreshBoard(board)
    ensures Inv(ResetGame(g, board))
  {
    NewGameInv(board);
  }

  /** The matched cards, counted kind by kind. */
  lemma {:induction false} MatchedCountByKind(cards: seq<MemoryCard>)
    ensures MatchedCount(cards) ==
      CountBy(cards, MatchedKind, (true, LineChart)) + CountBy(cards, MatchedKind, (true, BarChart)) + CountBy(cards, MatchedKind, (true, ScatterPlot))
  {
    if cards != [] {
      MatchedCountByKind(cards[1..]);
      var c := cards[0];
      assert MatchedCount(cards) == (if c.matched then 1 else 0) + MatchedCount(cards[1..]);
      assert CountBy(cards, MatchedKind, (true, c.kind)) == (if c.matched then 1 else 0) + CountBy(cards[1..], MatchedKind, (true, c.kind));
      forall k | k != c.kind
        ensures CountBy(cards, MatchedKind, (true, k)) == CountBy(cards[1..], MatchedKind, (true, k))
      {
        assert MatchedKind(c) != (true, k);
      }
    }
  }

  /**
   * The "pairs found" counter `matchedCount / 2` is a whole number between 0
   * and the number of pairs, and reaches it exactly when every card is matched.
   */
  lemma MatchesWithinPairs(g: Game)
    requires Inv(g)
    ensures MatchedCount(g.cards) % 2 == 0
    ensures 0 <= MatchedCount(g.cards) / 2 <= TotalPairs
    ensures MatchedCount(g.cards) / 2 == TotalPairs <==> forall i :: 0 <= i < |g.cards| ==> g.cards[i].matched
  {
    MatchedCountByKind(g.cards);
    assert CountBy(g.cards, MatchedKind, (true, LineChart)) in {0, 2};
    assert CountBy(g.cards, MatchedKind, (true, BarChart)) in {0, 2};
    assert CountBy(g.cards, MatchedKind, (true, ScatterPlot)) in {0, 2};
    if MatchedCount(g.cards) / 2 == TotalPairs {
      AllCountedAll(g.cards, MatchedOf, true);
    } else {
      assert MatchedCount(g.cards) < 6;
      if forall i :: 0 <= i < |g.cards| ==> g.cards[i].matched {
        AllCountedAll(g.cards, MatchedOf, true);
      }
    }
  }

  /** All elements have key `k` exactly when the count is the length. */
  lemma {:induction false} AllCountedAll<T, K>(s: seq<T>, key: T -> K, k: K)
    ensures CountBy(s, key, k) == |s| <==> forall i :: 0 <= i < |s| ==> key(s[i]) == k
  {
    if s != [] {
      AllCountedAll(s[1..], key, k);
      assert forall i :: 1 <= i < |s| ==> s[1..][i - 1] == s[i];
    }
  }

  /** A run of the game: the board a reset deals, then clicks, resolutions and resets. */
  datatype Step = Flip(index: nat) | Resolve | ResetTo(board: seq<MemoryCard>)

  function Apply(g: Game, st: Step): (g': Game)
    requires Inv(g)
    requires st.Flip? ==> st.index < 6
    requires st.ResetTo? ==> FreshBoard(st.board)
    ensures Inv(g')
  {
    match st
    case Flip(i) => HandleFlipPreservesInv(g, i); HandleFlip(g, i)
    case Resolve => if g.timer.Some? then FirePreservesInv(g); Fire(g) else g
    case ResetTo(board) => ResetGamePreservesInv(g, board); ResetGame(g, board)
  }

  // ---------------------------------------------------------------------------
  // The reset that does not cancel the pending resolution
  // ---------------------------------------------------------------------------

  /**
   * Open the two Line Chart cards of the unshuffled board, reset to a board
   * whose positions 0 and 3 hold different kinds, and let the old timer
   * fire: it marks a Line Chart and a Bar Chart card as matched, leaving a
   * lone matched card of each kind, which breaks the pairing invariant (the
   * two partners can then never be matched, so the game cannot be won).
   */
  /** The unshuffled board with the cards at positions 3 and 4 swapped. */
  function SwappedBoard(): seq<MemoryCard> {
    var d := Duplicated();
    d[3 := d[4]][4 := d[3]]
  }

  lemma SwappedBoardIsFresh()
    ensures FreshBoard(SwappedBoard())
    ensures SwappedBoard()[0].kind == LineChart && SwappedBoard()[3].kind == BarChart
  {
    var d := Duplicated();
    DuplicatedIsFresh();
    var board := SwappedBoard();
    assert multiset(board) == multiset(d);
    forall k
      ensures CountBy(board, KindOf, k) == 2
    {
      CountByPermutation(d, board, KindOf, k);
    }
    DistinctKeysPermutation(d, board, IdOf);
  }

  /** Opening the two Line Chart cards of the unshuffled board schedules a matching resolution of positions 0 and 3. */
  lemma OpenBothLineCharts()
    ensures HandleFlip(HandleFlip(NewGame(Duplicated()), 0), 3).timer == Some(Pending(0, 3, true))
  {
    var d := Duplicated();
    var g1 := HandleFlip(NewGame(d), 0);
    assert g1.openIdx == [0] && !g1.busy;
    assert g1.cards[3] == d[3];
  }

  /**
   * Open the two Line Chart cards of the unshuffled board, reset to a board
   * whose positions 0 and 3 hold different kinds, and let the old timer
   * fire: it marks a Line Chart and a Bar Chart card as matched, leaving a
   * lone matched card of each kind, which breaks the pairing invariant (the
   * two partners can then never be matched, so the game cannot be won).
   */
  lemma ResetAsWrittenBreaksPairs()
    ensures
      var g2 := HandleFlip(HandleFlip(NewGame(Duplicated()), 0), 3);
      var g3 := ResetAsWritten(g2, SwappedBoard());
      && FreshBoard(SwappedBoard())
      && g3.timer.Some? && g3.timer.value.first < 6 && g3.timer.value.second < 6
      && CountBy(Fire(g3).cards, MatchedKind, (true, LineChart)) == 1
      && !Inv(Fire(g3))
  {
    SwappedBoardIsFresh();
    OpenBothLineCharts();
    var board := SwappedBoard();
    var g3 := Game(board, [], 0, false, Some(Pending(0, 3, true)));
    var cs := Fire(g3).cards;
    assert cs == board[0 := board[0].(matched := true)][3 := board[3].(matched := true)];
    assert forall i :: 0 <= i < 6 ==> !board[i].matched;
    assert MatchedKind(cs[0]) == (true, LineChart);
    assert MatchedKind(cs[3]) != (true, LineChart);
    assert !cs[1].matched && !cs[2].matched && !cs[4].matched && !cs[5].matched;
    CountBySix(cs, MatchedKind, (true, LineChart));
  }
}
