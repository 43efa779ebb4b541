/**
 * Dealing a new grid (`generate_game_grid`): `rows*cols / 2` emojis drawn from the pool,
 * each placed twice, the filler appended when the cell count is odd, the deck shuffled
 * in place and every entry wrapped as an unmatched tile.
 *
 * The two random draws are parameters: `picks` are the pool positions `random.sample`
 * chose, `swaps` the positions `random.shuffle` drew in its Fisher-Yates pass.
 */
module GridGen {
  import opened Common

  /** One cell of the grid: `{"emoji": ..., "matched": ...}`. */
  datatype Tile = Tile(emoji: Emoji, matched: bool)

  /** The outcome of dealing: the grid and the session's filler, or the error `random.sample` raises. */
  datatype Deal = Dealt(grid: seq<Tile>, filler: Option<Emoji>) | InsufficientSymbolPool

  predicate Distinct<T(==)>(s: seq<T>)
  {
    forall i, j :: 0 <= i < j < |s| ==> s[i] != s[j]
  }

  /** A draw of `random.sample(pool, k)` from a pool of size `n`: `k` distinct positions of the pool. */
  predicate IsSelection(picks: seq<nat>, n: nat, k: nat)
  {
    && |picks| == k
    && (forall j :: 0 <= j < |picks| ==> picks[j] < n)
    && Distinct(picks)
  }

  /**
   * The draws of `random.shuffle` on a list of length `n`: for each position `i` from
   * `n - 1` down to 1 it swaps `i` with a position drawn from `0..i`.
   */
  predicate IsSwapChoice(swaps: seq<nat>, n: nat)
  {
    |swaps| == n && forall i :: 0 <= i < n ==> swaps[i] <= i
  }

  /** The random draws a deal of `total` cells consumes, whenever the pool is large enough to deal at all. */
  predicate ChoicesFit(total: nat, pool: seq<Emoji>, picks: seq<nat>, swaps: seq<nat>)
  {
    |pool| >= total / 2 ==> IsSelection(picks, |pool|, total / 2) && IsSwapChoice(swaps, total)
  }

  /** The emojis at the chosen pool positions, in the order they were drawn. */
  function Sample(pool: seq<Emoji>, picks: seq<nat>): (r: seq<Emoji>)
    requires forall j :: 0 <= j < |picks| ==> picks[j] < |pool|
    ensures |r| == |picks| && forall e :: e in r ==> e in pool
  {
    seq(|picks|, j requires 0 <= j < |picks| => pool[picks[j]])
  }

  /** The emojis of a grid, cell by cell. */
  function Symbols(grid: seq<Tile>): seq<Emoji>
  {
    seq(|grid|, i requires 0 <= i < |grid| => grid[i].emoji)
  }

  /** The filler's share of a deck of `total` cells. */
  function FillerPart(total: nat): multiset<Emoji>
  {
    if total % 2 == 1 then multiset{FILLER} else multiset{}
  }

  /**
   * A freshly dealt grid of `total` cells for the drawn `sample`: the right size, nothing
   * matched, every drawn emoji twice plus the filler once for an odd count, and the
   * session's filler set exactly when the count is odd.
   */
  predicate IsDealt(grid: seq<Tile>, filler: Option<Emoji>, total: nat, sample: seq<Emoji>)
  {
    && |grid| == total
    && (forall i :: 0 <= i < |grid| ==> !grid[i].matched)
    && multiset(Symbols(grid)) == multiset(sample) + multiset(sample) + FillerPart(total)
    && filler == (if total % 2 == 1 then Some(FILLER) else None)
  }

  /** `[{"emoji": deck[i], "matched": False} for i in range(total)]`. */
  function NewTiles(deck: seq<Emoji>, total: nat): (r: seq<Tile>)
    requires total <= |deck|
    ensures Symbols(r) == deck[..total]
    ensures forall t :: t in r ==> !t.matched
  {
    seq(total, i requires 0 <= i < total => Tile(deck[i], false))
  }

  /** `random.shuffle(deck)`: the Fisher-Yates pass with the drawn swap positions; the deck is permuted. */
  method Shuffle(deck: array<Emoji>, swaps: seq<nat>)
    requires IsSwapChoice(swaps, deck.Length)
    modifies deck
    ensures multiset(deck[..]) == multiset(old(deck[..]))
  {
    var i := deck.Length - 1;
    while i >= 1
      invariant i < deck.Length
      invariant multiset(deck[..]) == multiset(old(deck[..]))
      decreases i
    {
      var j := swaps[i];
      deck[i], deck[j] := deck[j], deck[i];
      i := i - 1;
    }
  }

  /** `generate_game_grid(rows, cols)`. */
  method GenerateGrid(rows: nat, cols: nat, pool: seq<Emoji>, picks: seq<nat>, swaps: seq<nat>) returns (deal: Deal)
    requires ChoicesFit(rows * cols, pool, picks, swaps)
    ensures deal.InsufficientSymbolPool? <==> |pool| < rows * cols / 2
    ensures deal.Dealt? ==> IsDealt(deal.grid, deal.filler, rows * cols, Sample(pool, picks))
  {
    var total := rows * cols;
    var pairCount := total / 2;
    if |pool| < pairCount {
      return InsufficientSymbolPool;
    }
    var emojis := Sample(pool, picks);
    var deck := DoubleUp(emojis);
    var filler: Option<Emoji>;
    if total % 2 == 1 {
      filler := Some(FILLER);
      deck := deck + [FILLER];
    } else {
      filler := None;
    }
    var cells := new Emoji[|deck|](i requires 0 <= i < |deck| => deck[i]);
    assert cells[..] == deck;
    Shuffle(cells, swaps);
    var grid := NewTiles(cells[..], total);
    assert Symbols(grid) == cells[..];
    deal := Dealt(grid, filler);
  }

  /** The deck before the shuffle: each drawn emoji appended twice, in draw order. */
  method DoubleUp(emojis: seq<Emoji>) returns (deck: seq<Emoji>)
    ensures |deck| == 2 * |emojis|
    ensures multiset(deck) == multiset(emojis) + multiset(emojis)
  {
    deck := [];
    for k := 0 to |emojis|
      invariant |deck| == 2 * k
      invariant multiset(deck) == multiset(emojis[..k]) + multiset(emojis[..k])
    {
      assert emojis[..k + 1] == emojis[..k] + [emojis[k]];
      deck := deck + [emojis[k]];
      deck := deck + [emojis[k]];
    }
    assert emojis[..|emojis|] == emojis;
  }

  lemma {:induction false} DistinctCountsOnce(s: seq<Emoji>)
    requires Distinct(s)
    ensures forall e :: e in s ==> multiset(s)[e] == 1
  {
    if s != [] {
      assert Distinct(s[1..]) by {
        forall i, j | 0 <= i < j < |s[1..]| ensures s[1..][i] != s[1..][j] {
          assert s[1..][i] == s[i + 1] && s[1..][j] == s[j + 1];
        }
      }
      DistinctCountsOnce(s[1..]);
      assert s == [s[0]] + s[1..];
      assert multiset(s) == multiset{s[0]} + multiset(s[1..]);
      assert s[0] !in s[1..];
    }
  }

  /** Drawing distinct positions of a pool without repeated emojis gives distinct emojis. */
  lemma SampleIsDistinct(pool: seq<Emoji>, picks: seq<nat>, k: nat)
    requires Distinct(pool) && IsSelection(picks, |pool|, k)
    ensures Distinct(Sample(pool, picks)) && |Sample(pool, picks)| == k
    ensures forall e :: e in Sample(pool, picks) ==> e in pool
  {
  }

  /**
   * In a dealt grid whose sample has no repeats, each drawn emoji other than the filler
   * occupies exactly two cells and no undrawn emoji appears besides the filler. The pool
   * does not exclude the filler symbol, so the filler occupies two cells when it was drawn,
   * plus one when the count is odd: three filler tiles are possible.
   */
  lemma DealtSymbolCounts(grid: seq<Tile>, filler: Option<Emoji>, total: nat, sample: seq<Emoji>)
    requires IsDealt(grid, filler, total, sample)
    requires Distinct(sample)
    ensures forall e :: e in sample && e != FILLER ==> multiset(Symbols(grid))[e] == 2
    ensures multiset(Symbols(grid))[FILLER] ==
      (if FILLER in sample then 2 else 0) + (if total % 2 == 1 then 1 else 0)
    ensures forall e :: e !in sample && e != FILLER ==> multiset(Symbols(grid))[e] == 0
    ensures filler.Some? <==> total % 2 == 1
  {
    DistinctCountsOnce(sample);
  }
}
