/** One side's price index (matching_book.hpp, SideIndex): a tick ladder over a band with a
    three-level occupancy bitmap, plus an ordered map for prices outside the band. Its abstract
    value is one map from price to level, `levels`. */
module TickLadder {
  import opened Domain
  import opened Words

  const MAX_BAND_TICKS: nat := 8192
  const MIN_BAND_TICKS: nat := 1024
  const LEVEL_SLOT_BYTES: nat := 8

  /** End of a chain, and an empty level. */
  const NIL: int := -1

  datatype LevelSlot = LevelSlot(head: int, tail: int)

  /** The widths a ladder may have: none, or a power of two between the two limits. */
  predicate BandWidth(ticks: nat) {
    ticks == 0 || ticks == 1024 || ticks == 2048 || ticks == 4096 || ticks == 8192
  }

  function BitFloor(n: nat): nat
    requires MIN_BAND_TICKS <= n <= MAX_BAND_TICKS
  {
    if n >= 8192 then 8192 else if n >= 4096 then 4096 else if n >= 2048 then 2048 else 1024
  }

  /** A ladder's width: the largest one allowed such that two for each instrument fit the budget. */
  function BandFor(instrumentCount: nat, byteBudget: nat): (ticks: nat)
    ensures BandWidth(ticks)
    ensures instrumentCount == 0 ==> ticks == MAX_BAND_TICKS
    ensures instrumentCount > 0 ==> Fits(instrumentCount, byteBudget, ticks)
    ensures forall t: nat | BandWidth(t) && Fits(instrumentCount, byteBudget, t) :: t <= ticks
  {
    if instrumentCount == 0 then MAX_BAND_TICKS
    else
      var ticks := byteBudget / instrumentCount / (2 * LEVEL_SLOT_BYTES);
      FitsBelow(instrumentCount, byteBudget);
      if ticks < MIN_BAND_TICKS then 0
      else BitFloor(if ticks < MAX_BAND_TICKS then ticks else MAX_BAND_TICKS)
  }

  /** Two ladders of this width for each instrument fit the budget. */
  predicate Fits(instrumentCount: nat, byteBudget: nat, ticks: nat) {
    instrumentCount * (2 * LEVEL_SLOT_BYTES * ticks) <= byteBudget
  }

  lemma FitsBelow(instrumentCount: nat, byteBudget: nat)
    requires instrumentCount > 0
    ensures forall t: nat :: Fits(instrumentCount, byteBudget, t) <==>
                             t <= byteBudget / instrumentCount / (2 * LEVEL_SLOT_BYTES)
  {
    forall t: nat ensures Fits(instrumentCount, byteBudget, t) <==> 16 * t <= byteBudget / instrumentCount {
      ShareFits(instrumentCount, byteBudget, 2 * LEVEL_SLOT_BYTES * t);
    }
  }

  lemma ShareFits(n: nat, budget: nat, u: nat)
    requires n > 0
    ensures n * u <= budget <==> u <= budget / n
  {
    var share := budget / n;
    assert budget == share * n + budget % n;
    if u <= share {
      assert n * u <= n * share;
    } else {
      assert n * (share + 1) <= n * u;
    }
  }

  function WordsFor(ticks: nat): nat {
    (ticks + 63) / 64
  }

  /** `words` is the bitmap of `members`: 64 members to a word. */
  ghost predicate Marks(members: set<nat>, words: seq<Word>) {
    && (forall t | t in members :: t < 64 * |words|)
    && (forall w, b: nat | 0 <= w < |words| && b < 64 :: Bit(words[w], b) <==> w * 64 + b in members)
  }

  /** The words that are not zero: what the next level of the bitmap summarises. */
  ghost function Occupied(words: seq<Word>): set<nat> {
    set w: nat | w < |words| && words[w] != 0
  }

  /** The three bitmap levels describe the set `ticks`. */
  ghost predicate Hierarchy(ticks: set<nat>, band: nat, occupancy: seq<Word>, mid: seq<Word>, summary: Word) {
    && |occupancy| == WordsFor(band)
    && |mid| == WordsFor(|occupancy|)
    && Marks(ticks, occupancy)
    && Marks(Occupied(occupancy), mid)
    && Marks(Occupied(mid), [summary])
  }

  /** `r` is the lowest member that is at least `low`. */
  ghost predicate IsLowest(members: set<nat>, low: int, r: nat) {
    r in members && r >= low && forall t | t in members && t >= low :: r <= t
  }

  /** `r` is the highest member below `high`. */
  ghost predicate IsHighest(members: set<nat>, high: int, r: nat) {
    r in members && r < high && forall t | t in members && t < high :: t <= r
  }

  // ---------- one bitmap level ----------

  lemma MarkedWord(members: set<nat>, words: seq<Word>, t: nat)
    requires Marks(members, words)
    ensures t in members ==> t / 64 in Occupied(words)
    ensures t in members <==> t / 64 < |words| && Bit(words[t / 64], t % 64)
  {
    hide Bit;
    if t in members {
      assert t / 64 * 64 + t % 64 == t;
      assert Bit(words[t / 64], t % 64);
      ZeroHasNoBits(t % 64);
    } else if t / 64 < |words| {
      assert t / 64 * 64 + t % 64 == t;
    }
  }

  lemma NoMembers(members: set<nat>, words: seq<Word>)
    requires Marks(members, words)
    ensures members == {} <==> Occupied(words) == {}
  {
    hide Bit;
    if t :| t in members {
      MarkedWord(members, words, t);
    }
    if w :| w in Occupied(words) {
      var b := NonZero(words[w]);
      assert w * 64 + b in members;
    }
  }

  lemma SetMark(members: set<nat>, words: seq<Word>, t: nat, x: Word)
    requires Marks(members, words) && t < 64 * |words|
    requires forall j: nat | j < 64 :: Bit(x, j) <==> j == t % 64 || Bit(words[t / 64], j)
    ensures Marks(members + {t}, words[t / 64 := x])
    ensures Occupied(words[t / 64 := x]) == Occupied(words) + {t / 64}
  {
    hide Bit;
    var words' := words[t / 64 := x];
    assert Bit(x, t % 64);
    ZeroHasNoBits(t % 64);
    forall w, b: nat | 0 <= w < |words'| && b < 64
      ensures Bit(words'[w], b) <==> w * 64 + b in members + {t}
    {
      assert w * 64 + b == t <==> w == t / 64 && b == t % 64;
    }
  }

  lemma ClearMark(members: set<nat>, words: seq<Word>, t: nat, x: Word)
    requires Marks(members, words) && t < 64 * |words|
    requires forall j: nat | j < 64 :: Bit(x, j) <==> j != t % 64 && Bit(words[t / 64], j)
    ensures Marks(members - {t}, words[t / 64 := x])
    ensures x == 0 ==> Occupied(words[t / 64 := x]) == Occupied(words) - {t / 64}
    ensures x != 0 ==> Occupied(words[t / 64 := x]) == Occupied(words)
  {
    hide Bit;
    var words' := words[t / 64 := x];
    if x != 0 {
      var b := NonZero(x);
      ZeroHasNoBits(b);
    }
    forall w, b: nat | 0 <= w < |words'| && b < 64
      ensures Bit(words'[w], b) <==> w * 64 + b in members - {t}
    {
      assert w * 64 + b == t <==> w == t / 64 && b == t % 64;
    }
  }

  /** The highest bit of the highest occupied word below word `wordLimit` is the highest member
      below `limit`, when the words below `wordLimit` hold exactly the members below `limit`. */
  lemma DescendHighest(members: set<nat>, words: seq<Word>, limit: nat, wordLimit: nat, w: nat, b: nat)
    requires Marks(members, words) && IsHighest(Occupied(words), wordLimit, w)
    requires wordLimit * 64 <= limit && forall t | t in members && t < limit :: t / 64 < wordLimit
    requires b < 64 && Bit(words[w], b) && forall j: nat | b < j < 64 :: !Bit(words[w], j)
    ensures IsHighest(members, limit, w * 64 + b)
  {
    hide Bit;
    forall t | t in members && t < limit ensures t <= w * 64 + b {
      MarkedWord(members, words, t);
      if t / 64 == w { assert t % 64 <= b; }
    }
  }

  lemma DescendLowest(members: set<nat>, words: seq<Word>, limit: nat, wordLimit: nat, w: nat, b: nat)
    requires Marks(members, words) && IsLowest(Occupied(words), wordLimit, w)
    requires wordLimit * 64 >= limit && forall t | t in members && t >= limit :: t / 64 >= wordLimit
    requires b < 64 && Bit(words[w], b) && forall j: nat | j < b :: !Bit(words[w], j)
    ensures IsLowest(members, limit, w * 64 + b)
  {
    hide Bit;
    forall t | t in members && t >= limit ensures t >= w * 64 + b {
      MarkedWord(members, words, t);
      if t / 64 == w { assert t % 64 >= b; }
    }
  }

  /** `rest` is the part of `limit`'s own word strictly below `limit`. */
  ghost predicate RestBelow(words: seq<Word>, limit: nat, rest: Word) {
    && limit < 64 * |words|
    && forall j: nat | j < 64 :: Bit(rest, j) <==> j < limit % 64 && Bit(words[limit / 64], j)
  }

  /** `rest` is the part of `limit`'s own word strictly above `limit`. */
  ghost predicate RestAbove(words: seq<Word>, limit: nat, rest: Word) {
    && limit < 64 * |words|
    && forall j: nat | j < 64 :: Bit(rest, j) <==> j > limit % 64 && Bit(words[limit / 64], j)
  }

  lemma OwnHighest(members: set<nat>, words: seq<Word>, limit: nat, rest: Word, b: nat)
    requires Marks(members, words) && RestBelow(words, limit, rest)
    requires b < 64 && Bit(rest, b) && forall j: nat | b < j < 64 :: !Bit(rest, j)
    ensures IsHighest(members, limit, limit / 64 * 64 + b)
  {
    hide Bit;
    forall t | t in members && t < limit ensures t <= limit / 64 * 64 + b {
      MarkedWord(members, words, t);
      if t / 64 == limit / 64 { assert Bit(rest, t % 64); }
    }
  }

  lemma OwnNoneBelow(members: set<nat>, words: seq<Word>, limit: nat)
    requires Marks(members, words) && RestBelow(words, limit, 0)
    ensures forall t | t in members && t < limit :: t / 64 < limit / 64
  {
    hide Bit;
    forall t | t in members && t < limit ensures t / 64 < limit / 64 {
      MarkedWord(members, words, t);
      ZeroHasNoBits(t % 64);
    }
  }

  lemma OwnLowest(members: set<nat>, words: seq<Word>, limit: nat, rest: Word, b: nat)
    requires Marks(members, words) && RestAbove(words, limit, rest)
    requires b < 64 && Bit(rest, b) && forall j: nat | j < b :: !Bit(rest, j)
    ensures IsLowest(members, limit + 1, limit / 64 * 64 + b)
  {
    hide Bit;
    forall t | t in members && t > limit ensures t >= limit / 64 * 64 + b {
      MarkedWord(members, words, t);
      if t / 64 == limit / 64 { assert Bit(rest, t % 64); }
    }
  }

  lemma OwnNoneAbove(members: set<nat>, words: seq<Word>, limit: nat)
    requires Marks(members, words) && RestAbove(words, limit, 0)
    ensures forall t | t in members && t > limit :: t / 64 > limit / 64
  {
    hide Bit;
    forall t | t in members && t > limit ensures t / 64 > limit / 64 {
      MarkedWord(members, words, t);
      ZeroHasNoBits(t % 64);
    }
  }

  lemma OneWord(word: Word)
    requires word != 0
    ensures IsHighest(Occupied([word]), 1, 0) && IsLowest(Occupied([word]), 0, 0)
  {
    assert 0 in Occupied([word]);
  }

  lemma Bounds(members: set<nat>, words: seq<Word>)
    requires Marks(members, words)
    ensures forall t | t in members :: t < 64 * |words|
    ensures forall w | w in Occupied(words) :: w < |words| && words[w] != 0
  {
  }

  lemma TicksInBand(ticks: set<nat>, band: nat, occupancy: seq<Word>, mid: seq<Word>, summary: Word)
    requires Hierarchy(ticks, band, occupancy, mid, summary) && band % 64 == 0
    ensures forall t | t in ticks :: t < band
  {
    Bounds(ticks, occupancy);
  }

  lemma EmptyHierarchy(ticks: set<nat>, band: nat, occupancy: seq<Word>, mid: seq<Word>, summary: Word)
    requires Hierarchy(ticks, band, occupancy, mid, summary)
    ensures ticks == {} <==> summary == 0
  {
    hide Marks;
    NoMembers(ticks, occupancy);
    NoMembers(Occupied(occupancy), mid);
    NoMembers(Occupied(mid), [summary]);
    if summary != 0 { assert 0 in Occupied([summary]); }
  }

  /** No occupied word below `limit`'s own, and no member below `limit` in its own: none at all. */
  lemma NoneBelow(members: set<nat>, words: seq<Word>, limit: nat, word: nat)
    requires Marks(members, words) && word == limit / 64
    requires forall t | t in members && t < limit :: t / 64 < word
    requires forall w | w in Occupied(words) :: w >= word
    ensures forall t | t in members :: t >= limit
  {
    hide Bit, Marks, Occupied;
    if t :| t in members && t < limit {
      MarkedWord(members, words, t);
    }
  }

  lemma NoneAbove(members: set<nat>, words: seq<Word>, limit: nat, word: nat)
    requires Marks(members, words) && word == limit / 64
    requires forall t | t in members && t > limit :: t / 64 > word
    requires forall w | w in Occupied(words) :: w <= word
    ensures forall t | t in members :: t <= limit
  {
    hide Bit, Marks, Occupied;
    if t :| t in members && t > limit {
      MarkedWord(members, words, t);
    }
  }

  // ---------- the ladder and the map as one map ----------

  /** Where the ladder's band lies. */
  datatype Band = NoBand | Band(base: int, width: nat) {
    predicate Has(price: int) {
      Band? && 0 <= price - base < width
    }
  }

  /** The occupied prices: `ticks` of the band, and the overflow keys, which lie outside it. */
  ghost predicate Listed(levels: map<Price, LevelSlot>, band: Band, ticks: set<nat>, overflow: map<Price, LevelSlot>) {
    && (band.NoBand? ==> ticks == {})
    && (forall t | t in ticks :: t < band.width && PriceMin <= band.base + t <= PriceMax)
    && (forall p | p in overflow :: !band.Has(p))
    && (forall p: Price {:trigger p in levels} ::
          p in levels <==> if band.Has(p) then p - band.base in ticks else p in overflow)
  }

  /** `levels` is the union of the occupied ladder entries and the overflow map, which do not meet. */
  ghost predicate Shows(levels: map<Price, LevelSlot>, band: Band, ticks: set<nat>, ladder: seq<LevelSlot>,
                        overflow: map<Price, LevelSlot>) {
    && Listed(levels, band, ticks, overflow)
    && (band.Band? ==> |ladder| == band.width)
    && (forall p | p in levels :: levels[p] == if band.Has(p) then ladder[p - band.base] else overflow[p])
  }

  lemma ListedTick(levels: map<Price, LevelSlot>, band: Band, ticks: set<nat>, overflow: map<Price, LevelSlot>, t: nat)
    requires Listed(levels, band, ticks, overflow) && t in ticks
    ensures band.Band? && t < band.width && band.base + t in levels
  {
    var p: Price := band.base + t;
    assert p - band.base == t;
    assert p in levels;
  }

  lemma ShowsNothing(levels: map<Price, LevelSlot>, band: Band, ticks: set<nat>, ladder: seq<LevelSlot>,
                     overflow: map<Price, LevelSlot>)
    requires Shows(levels, band, ticks, ladder, overflow)
    ensures levels == map[] <==> ticks == {} && overflow == map[]
    ensures band.NoBand? ==> ticks == {}
  {
    if t :| t in ticks {
      ListedTick(levels, band, ticks, overflow, t);
    }
    if levels == map[] {
      assert forall p | p in overflow :: p in levels;
      assert overflow.Keys == {};
    }
  }

  lemma ShowsAt(levels: map<Price, LevelSlot>, band: Band, ticks: set<nat>, ladder: seq<LevelSlot>,
                overflow: map<Price, LevelSlot>, price: Price)
    requires Shows(levels, band, ticks, ladder, overflow)
    ensures price in levels <==> if band.Has(price) then price - band.base in ticks else price in overflow
    ensures price in levels ==>
              levels[price] == if band.Has(price) then ladder[price - band.base] else overflow[price]
  {
  }

  lemma ShowsLadderWrite(levels: map<Price, LevelSlot>, band: Band, ticks: set<nat>, ladder: seq<LevelSlot>,
                         overflow: map<Price, LevelSlot>, price: Price, level: LevelSlot)
    requires Shows(levels, band, ticks, ladder, overflow) && band.Has(price)
    ensures Shows(levels[price := level], band, ticks + {price - band.base}, ladder[price - band.base := level],
                  overflow)
  {
  }

  lemma ShowsOverflowWrite(levels: map<Price, LevelSlot>, band: Band, ticks: set<nat>, ladder: seq<LevelSlot>,
                           overflow: map<Price, LevelSlot>, price: Price, level: LevelSlot)
    requires Shows(levels, band, ticks, ladder, overflow) && !band.Has(price)
    ensures Shows(levels[price := level], band, ticks, ladder, overflow[price := level])
  {
  }

  lemma ShowsLadderErase(levels: map<Price, LevelSlot>, band: Band, ticks: set<nat>, ladder: seq<LevelSlot>,
                         overflow: map<Price, LevelSlot>, price: Price)
    requires Shows(levels, band, ticks, ladder, overflow) && band.Has(price)
    ensures Shows(levels - {price}, band, ticks - {price - band.base}, ladder, overflow)
  {
  }

  lemma ShowsOverflowErase(levels: map<Price, LevelSlot>, band: Band, ticks: set<nat>, ladder: seq<LevelSlot>,
                           overflow: map<Price, LevelSlot>, price: Price)
    requires Shows(levels, band, ticks, ladder, overflow) && !band.Has(price)
    ensures Shows(levels - {price}, band, ticks, ladder, overflow - {price})
  {
  }

  // ---------- the walk ----------

  /** The occupied price that comes first. */
  ghost predicate IsFirst(side: Side, prices: set<Price>, p: Price) {
    p in prices && forall q | q in prices :: !Better(side, q, p)
  }

  /** The occupied price that comes next past `p`, or none when none is past it. */
  ghost predicate IsNext(side: Side, prices: set<Price>, p: Price, next: Option<Price>) {
    match next
    case Some(n) =>
      n in prices && Better(side, p, n) && forall q | q in prices && Better(side, p, q) :: !Better(side, q, n)
    case None => forall q | q in prices :: !Better(side, p, q)
  }

  /** The first, then each next one until there is none. */
  ghost predicate IsWalk(side: Side, prices: set<Price>, walk: seq<Price>) {
    if prices == {} then walk == []
    else
      && walk != [] && IsFirst(side, prices, walk[0])
      && (forall k | 0 < k < |walk| :: IsNext(side, prices, walk[k - 1], Some(walk[k])))
      && IsNext(side, prices, walk[|walk| - 1], None)
  }

  /** The walk visits every occupied price, each once, best first. */
  lemma WalkVisitsAll(side: Side, prices: set<Price>, walk: seq<Price>)
    requires IsWalk(side, prices, walk)
    ensures forall i, j | 0 <= i < j < |walk| :: Better(side, walk[i], walk[j])
    ensures forall p :: p in prices <==> p in walk
  {
    if prices != {} {
      forall i, j | 0 <= i < j < |walk| ensures Better(side, walk[i], walk[j]) {
        WalkDescends(side, prices, walk, i, j);
      }
      forall p | p in prices ensures p in walk {
        WalkPasses(side, prices, walk, p, |walk|);
      }
      forall k | 0 <= k < |walk| ensures walk[k] in prices {
        assert k > 0 ==> IsNext(side, prices, walk[k - 1], Some(walk[k]));
      }
    }
  }

  lemma {:induction false} WalkDescends(side: Side, prices: set<Price>, walk: seq<Price>, i: nat, j: nat)
    requires IsWalk(side, prices, walk) && i < j < |walk|
    ensures Better(side, walk[i], walk[j])
    decreases j
  {
    assert IsNext(side, prices, walk[j - 1], Some(walk[j]));
    if i < j - 1 {
      WalkDescends(side, prices, walk, i, j - 1);
    }
  }

  /** After some steps a price was visited or is still to come. */
  lemma {:induction false} WalkPasses(side: Side, prices: set<Price>, walk: seq<Price>, p: Price, steps: nat)
    requires IsWalk(side, prices, walk) && p in prices && 0 < steps <= |walk|
    ensures p in walk[..steps] || Better(side, walk[steps - 1], p)
  {
    assert walk[..steps][steps - 1] == walk[steps - 1];
    if steps > 1 {
      WalkPasses(side, prices, walk, p, steps - 1);
      assert IsNext(side, prices, walk[steps - 2], Some(walk[steps - 1]));
      assert walk[..steps] == walk[..steps - 1] + [walk[steps - 1]];
    }
  }


  class SideIndex {
    const side: Side
    const bandTicks: nat
    var base: int
    var anchored: bool
    var ladder: array?<LevelSlot>
    var occupancy: seq<Word>
    var midSummary: seq<Word>
    var summary: Word
    var overflow: map<Price, LevelSlot>
    ghost var ticks: set<nat>
    ghost var levels: map<Price, LevelSlot>

    ghost function Repr(): set<object>
      reads this
    {
      if ladder == null then {this} else {this, ladder}
    }

    function Extent(): Band
      reads this
    {
      if anchored then Band(base, bandTicks) else NoBand
    }

    predicate InBand(price: Price)
      reads this
    {
      anchored && 0 <= price - base < bandTicks
    }

    ghost predicate Valid()
      reads this, ladder
    {
      && BandWidth(bandTicks)
      && (bandTicks == 0 ==> !anchored)
      && (anchored ==> ladder != null && ladder.Length == bandTicks
                       && Hierarchy(ticks, bandTicks, occupancy, midSummary, summary))
      && (!anchored ==> ladder == null && summary == 0 && (bandTicks != 0 ==> overflow == map[]))
      && Shows(levels, Extent(), ticks, if ladder == null then [] else ladder[..], overflow)
    }

    constructor (side: Side, bandTicks: nat)
      requires BandWidth(bandTicks)
      ensures Valid() && fresh(Repr())
      ensures this.side == side && levels == map[]
    {
      this.side := side;
      this.bandTicks := bandTicks;
      base, anchored, ladder := 0, false, null;
      occupancy, midSummary, summary := [], [], 0;
      overflow, ticks, levels := map[], {}, map[];
    }

    method Empty() returns (r: bool)
      requires Valid()
      ensures r <==> levels == map[]
    {
      hide Hierarchy;
      r := summary == 0 && overflow == map[];
      if anchored {
        EmptyHierarchy(ticks, bandTicks, occupancy, midSummary, summary);
      }
      ShowsNothing(levels, Extent(), ticks, if ladder == null then [] else ladder[..], overflow);
    }

    /** Centres the band on `price`; the ladder is left uninitialised. */
    method Anchor(price: Price)
      requires Valid() && levels == map[] && bandTicks != 0
      modifies this
      ensures Valid() && InBand(price) && levels == map[]
      ensures fresh(Repr() - old(Repr()))
    {
      hide Bit;
      ShowsNothing(levels, Extent(), ticks, if ladder == null then [] else ladder[..], overflow);
      base := price - bandTicks / 2;
      if ladder == null {
        ladder := new LevelSlot[bandTicks];
        occupancy := seq(WordsFor(bandTicks), _ => 0);
        midSummary := seq(WordsFor(|occupancy|), _ => 0);
        forall i: nat | i < 64 ensures !Bit(0, i) { ZeroHasNoBits(i); }
      }
      anchored := true;
    }

    method SetOccupied(tick: nat)
      requires tick < bandTicks && BandWidth(bandTicks)
      requires Hierarchy(ticks, bandTicks, occupancy, midSummary, summary)
      modifies this`occupancy, this`midSummary, this`summary, this`ticks
      ensures Hierarchy(ticks, bandTicks, occupancy, midSummary, summary)
      ensures ticks == old(ticks) + {tick}
    {
      hide Bit, Marks, Occupied;
      var word := tick / 64;
      var w := Set(occupancy[word], tick % 64);
      SetMark(ticks, occupancy, tick, w);
      var m := Set(midSummary[word / 64], word % 64);
      SetMark(Occupied(occupancy), midSummary, word, m);
      var s := Set(summary, word / 64);
      SetMark(Occupied(midSummary), [summary], word / 64, s);
      assert [summary][0 := s] == [s];
      occupancy := occupancy[word := w];
      midSummary := midSummary[word / 64 := m];
      summary := s;
      ticks := ticks + {tick};
    }

    method ClearOccupied(tick: nat)
      requires tick < bandTicks && BandWidth(bandTicks)
      requires Hierarchy(ticks, bandTicks, occupancy, midSummary, summary)
      modifies this`occupancy, this`midSummary, this`summary, this`ticks
      ensures Hierarchy(ticks, bandTicks, occupancy, midSummary, summary)
      ensures ticks == old(ticks) - {tick}
    {
      hide Bit, Marks, Occupied;
      var word := tick / 64;
      var w := Clear(occupancy[word], tick % 64);
      ClearMark(ticks, occupancy, tick, w);
      ghost var was := Occupied(occupancy);
      occupancy := occupancy[word := w];
      ticks := ticks - {tick};
      if w != 0 {
        return;
      }
      var mid := word / 64;
      var m := Clear(midSummary[mid], word % 64);
      ClearMark(was, midSummary, word, m);
      ghost var wasMid := Occupied(midSummary);
      midSummary := midSummary[mid := m];
      if m == 0 {
        var s := Clear(summary, mid);
        ClearMark(wasMid, [summary], mid, s);
        assert [summary][0 := s] == [s];
        summary := s;
      }
    }

    method IsOccupied(tick: nat) returns (r: bool)
      requires BandWidth(bandTicks) && tick < bandTicks
      requires Hierarchy(ticks, bandTicks, occupancy, midSummary, summary)
      ensures r <==> tick in ticks
    {
      hide Bit;
      r := Bit(occupancy[tick / 64], tick % 64);
      MarkedWord(ticks, occupancy, tick);
    }

    method HighestOccupied() returns (r: nat)
      requires BandWidth(bandTicks) && (summary != 0 ==> Hierarchy(ticks, bandTicks, occupancy, midSummary, summary))
      ensures if summary == 0 then r == bandTicks else r < bandTicks && IsHighest(ticks, bandTicks, r)
    {
      hide Bit, Marks;
      if summary == 0 {
        return bandTicks;
      }
      var mid := Highest(summary);
      OneWord(summary);
      DescendHighest(Occupied(midSummary), [summary], 64, 1, 0, mid);
      var b := Highest(midSummary[mid]);
      DescendHighest(Occupied(occupancy), midSummary, 64 * |midSummary|, |midSummary|, mid, b);
      var word := mid * 64 + b;
      var c := Highest(occupancy[word]);
      DescendHighest(ticks, occupancy, bandTicks, |occupancy|, word, c);
      r := word * 64 + c;
    }

    method LowestOccupied() returns (r: nat)
      requires BandWidth(bandTicks) && (summary != 0 ==> Hierarchy(ticks, bandTicks, occupancy, midSummary, summary))
      ensures if summary == 0 then r == bandTicks else r < bandTicks && IsLowest(ticks, 0, r)
    {
      hide Bit, Marks;
      if summary == 0 {
        return bandTicks;
      }
      var mid := Lowest(summary);
      OneWord(summary);
      DescendLowest(Occupied(midSummary), [summary], 0, 0, 0, mid);
      var b := Lowest(midSummary[mid]);
      DescendLowest(Occupied(occupancy), midSummary, 0, 0, mid, b);
      var word := mid * 64 + b;
      var c := Lowest(occupancy[word]);
      DescendLowest(ticks, occupancy, 0, 0, word, c);
      r := word * 64 + c;
    }

    /** The highest non-zero bottom word below `word`, through the two summary levels. */
    method HighestWordBelow(word: nat) returns (found: bool, r: nat)
      requires word < |occupancy| && |midSummary| == WordsFor(|occupancy|) && |midSummary| <= 64
      requires Marks(Occupied(occupancy), midSummary) && Marks(Occupied(midSummary), [summary])
      ensures if found then IsHighest(Occupied(occupancy), word, r)
              else forall w | w in Occupied(occupancy) :: w >= word
    {
      hide Bit, Marks;
      var mid := word / 64;
      var rest := Below(midSummary[mid], word % 64);
      if rest != 0 {
        var b := Highest(rest);
        OwnHighest(Occupied(occupancy), midSummary, word, rest, b);
        return true, mid * 64 + b;
      }
      OwnNoneBelow(Occupied(occupancy), midSummary, word);
      var topRest := Below(summary, mid);
      if topRest == 0 {
        OwnNoneBelow(Occupied(midSummary), [summary], mid);
        NoneBelow(Occupied(occupancy), midSummary, word, mid);
        return false, 0;
      }
      var m := Highest(topRest);
      OwnHighest(Occupied(midSummary), [summary], mid, topRest, m);
      var b := Highest(midSummary[m]);
      DescendHighest(Occupied(occupancy), midSummary, word, mid, m, b);
      return true, m * 64 + b;
    }

    method HighestOccupiedBelow(tick: nat) returns (r: nat)
      requires BandWidth(bandTicks) && tick < bandTicks
      requires Hierarchy(ticks, bandTicks, occupancy, midSummary, summary)
      ensures if r == bandTicks then forall t | t in ticks :: t >= tick
              else r < bandTicks && IsHighest(ticks, tick, r)
    {
      hide Bit, Marks;
      if summary == 0 || tick == 0 {
        EmptyHierarchy(ticks, bandTicks, occupancy, midSummary, summary);
        return bandTicks;
      }
      var word := tick / 64;
      var rest := Below(occupancy[word], tick % 64);
      if rest != 0 {
        var c := Highest(rest);
        OwnHighest(ticks, occupancy, tick, rest, c);
        return word * 64 + c;
      }
      OwnNoneBelow(ticks, occupancy, tick);
      var found, w := HighestWordBelow(word);
      if !found {
        NoneBelow(ticks, occupancy, tick, word);
        return bandTicks;
      }
      var c := Highest(occupancy[w]);
      DescendHighest(ticks, occupancy, tick, word, w, c);
      r := w * 64 + c;
    }

    method LowestWordAbove(word: nat) returns (found: bool, r: nat)
      requires word < |occupancy| && |midSummary| == WordsFor(|occupancy|) && |midSummary| <= 64
      requires Marks(Occupied(occupancy), midSummary) && Marks(Occupied(midSummary), [summary])
      ensures if found then IsLowest(Occupied(occupancy), word + 1, r)
              else forall w | w in Occupied(occupancy) :: w <= word
    {
      hide Bit, Marks;
      var mid := word / 64;
      var rest := Above(midSummary[mid], word % 64);
      if rest != 0 {
        var b := Lowest(rest);
        OwnLowest(Occupied(occupancy), midSummary, word, rest, b);
        return true, mid * 64 + b;
      }
      OwnNoneAbove(Occupied(occupancy), midSummary, word);
      var topRest := Above(summary, mid);
      if topRest == 0 {
        OwnNoneAbove(Occupied(midSummary), [summary], mid);
        NoneAbove(Occupied(occupancy), midSummary, word, mid);
        return false, 0;
      }
      var m := Lowest(topRest);
      OwnLowest(Occupied(midSummary), [summary], mid, topRest, m);
      var b := Lowest(midSummary[m]);
      DescendLowest(Occupied(occupancy), midSummary, word + 1, mid + 1, m, b);
      return true, m * 64 + b;
    }

    method LowestOccupiedAbove(tick: nat) returns (r: nat)
      requires BandWidth(bandTicks) && tick < bandTicks
      requires Hierarchy(ticks, bandTicks, occupancy, midSummary, summary)
      ensures if r == bandTicks then forall t | t in ticks :: t <= tick
              else r < bandTicks && IsLowest(ticks, tick + 1, r)
    {
      hide Bit, Marks;
      Bounds(ticks, occupancy);
      if summary == 0 || tick + 1 >= bandTicks {
        EmptyHierarchy(ticks, bandTicks, occupancy, midSummary, summary);
        return bandTicks;
      }
      var word := tick / 64;
      var rest := Above(occupancy[word], tick % 64);
      if rest != 0 {
        var c := Lowest(rest);
        OwnLowest(ticks, occupancy, tick, rest, c);
        return word * 64 + c;
      }
      OwnNoneAbove(ticks, occupancy, tick);
      var found, w := LowestWordAbove(word);
      if !found {
        NoneAbove(ticks, occupancy, tick, word);
        return bandTicks;
      }
      var c := Lowest(occupancy[w]);
      DescendLowest(ticks, occupancy, tick + 1, word + 1, w, c);
      r := w * 64 + c;
    }

    /** Creates the level if this price has none; the result is the level as it stands. */
    method LevelFor(price: Price) returns (level: LevelSlot)
      requires Valid()
      modifies Repr()
      ensures Valid() && fresh(Repr() - old(Repr()))
      ensures levels == if price in old(levels) then old(levels) else old(levels)[price := LevelSlot(NIL, NIL)]
      ensures level == levels[price]
    {
      hide Hierarchy, Bit, Shows;
      var empty := Empty();
      ShowsNothing(levels, Extent(), ticks, if ladder == null then [] else ladder[..], overflow);
      if bandTicks != 0 && (!anchored || empty) {
        Anchor(price);
      }
      ShowsAt(levels, Extent(), ticks, if ladder == null then [] else ladder[..], overflow, price);
      if !InBand(price) {
        if price !in overflow {
          ShowsOverflowWrite(levels, Extent(), ticks, if ladder == null then [] else ladder[..], overflow,
                             price, LevelSlot(NIL, NIL));
          overflow := overflow[price := LevelSlot(NIL, NIL)];
          levels := levels[price := LevelSlot(NIL, NIL)];
        }
        return overflow[price];
      }
      var tick := price - base;
      var occupied := IsOccupied(tick);
      if !occupied {
        ShowsLadderWrite(levels, Extent(), ticks, ladder[..], overflow, price, LevelSlot(NIL, NIL));
        SetOccupied(tick);
        ladder[tick] := LevelSlot(NIL, NIL);
        levels := levels[price := LevelSlot(NIL, NIL)];
      }
      level := ladder[tick];
    }

    /** Writes through a level reference. */
    method SetLevel(price: Price, level: LevelSlot)
      requires Valid() && price in levels
      modifies Repr()
      ensures Valid() && Repr() == old(Repr())
      ensures levels == old(levels)[price := level]
    {
      hide Hierarchy, Shows;
      ghost var l := if ladder == null then [] else ladder[..];
      ShowsAt(levels, Extent(), ticks, l, overflow, price);
      if InBand(price) {
        ShowsLadderWrite(levels, Extent(), ticks, l, overflow, price, level);
        ladder[price - base] := level;
        assert ticks + {price - base} == ticks;
      } else {
        ShowsOverflowWrite(levels, Extent(), ticks, l, overflow, price, level);
        overflow := overflow[price := level];
      }
      levels := levels[price := level];
    }

    /** The level of an occupied price. */
    method LevelAt(price: Price) returns (level: LevelSlot)
      requires Valid() && price in levels
      ensures level == levels[price]
    {
      hide Hierarchy, Shows;
      ShowsAt(levels, Extent(), ticks, if ladder == null then [] else ladder[..], overflow, price);
      if InBand(price) {
        level := ladder[price - base];
      } else {
        level := overflow[price];
      }
    }

    method EraseLevel(price: Price)
      requires Valid() && price in levels
      modifies this
      ensures Valid() && Repr() == old(Repr())
      ensures levels == old(levels) - {price}
    {
      hide Hierarchy, Shows;
      ShowsAt(levels, Extent(), ticks, if ladder == null then [] else ladder[..], overflow, price);
      if InBand(price) {
        ShowsLadderErase(levels, Extent(), ticks, ladder[..], overflow, price);
        ClearOccupied(price - base);
      } else {
        ShowsOverflowErase(levels, Extent(), ticks, if ladder == null then [] else ladder[..], overflow, price);
        overflow := overflow - {price};
      }
      levels := levels - {price};
    }

    /** The occupied price that comes first. */
    method BestPrice() returns (r: Price)
      requires Valid() && levels != map[]
      ensures IsFirst(side, levels.Keys, r)
    {
      hide Hierarchy;
      ShowsNothing(levels, Extent(), ticks, if ladder == null then [] else ladder[..], overflow);
      var tick;
      if side == Buy {
        tick := HighestOccupied();
      } else {
        tick := LowestOccupied();
      }
      if anchored {
        EmptyHierarchy(ticks, bandTicks, occupancy, midSummary, summary);
      }
      if tick == bandTicks {
        r := FirstKey(side, overflow.Keys);
        return;
      }
      var laddered := base + tick;
      if overflow == map[] {
        return laddered;
      }
      var spilled := FirstKey(side, overflow.Keys);
      r := if Better(side, laddered, spilled) then laddered else spilled;
    }

    /** The next laddered price strictly past `price`, which may itself be outside the band. */
    method NextLaddered(price: Price) returns (found: bool, tick: nat)
      requires Valid()
      ensures found ==> anchored && tick in ticks && Better(side, price, base + tick)
                        && forall t | t in ticks && Better(side, price, base + t) ::
                             !Better(side, base + t, base + tick)
      ensures !found && anchored ==> forall t | t in ticks :: !Better(side, price, base + t)
    {
      hide Hierarchy, Shows;
      if !anchored {
        return false, 0;
      }
      EmptyHierarchy(ticks, bandTicks, occupancy, midSummary, summary);
      if summary == 0 {
        return false, 0;
      }
      TicksInBand(ticks, bandTicks, occupancy, midSummary, summary);
      var first, last := base, base + bandTicks - 1;
      tick := bandTicks;
      if side == Buy {
        if price > last {
          tick := HighestOccupied();
        } else if price > first {
          tick := HighestOccupiedBelow(price - base);
        }
      } else {
        if price < first {
          tick := LowestOccupied();
        } else if price < last {
          tick := LowestOccupiedAbove(price - base);
        }
      }
      found := tick != bandTicks;
    }

    /** The next occupied price strictly past `price`, if there is one. */
    method NextPrice(price: Price) returns (r: Option<Price>)
      requires Valid()
      ensures IsNext(side, levels.Keys, price, r)
    {
      hide Hierarchy;
      var found, tick := NextLaddered(price);
      var past := set k | k in overflow && Better(side, price, k);
      if past == {} {
        r := if found then Some(base + tick) else None;
        assert forall k | k in overflow :: Better(side, price, k) ==> k in past;
        return;
      }
      var spilled := FirstKey(side, past);
      r := if found && Better(side, base + tick, spilled) then Some(base + tick) else Some(spilled);
      forall p | p in levels && Better(side, price, p) ensures !Better(side, p, r.value) {
        if InBand(p) {
          assert p - base in ticks && p == base + (p - base);
        } else {
          assert p in past;
        }
      }
    }
  }
}
