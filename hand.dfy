/**
 * The hand evaluator: per-suit counts of a hand, its leading suit, and the
 * win test built on them.
 */
module Hand {
  import opened Cards
  import opened Seqs

  /** The game's two settings. Only the easy setting is compared by name; every
      other setting plays with the larger target. */
  datatype Difficulty = Easy | Hard

  /** Same-suit cards needed to win, which is also the hand size dealt. */
  function Target(d: Difficulty): nat {
    if d == Easy then 3 else 6
  }

  /** One entry of the suit-count dictionary. */
  datatype Tally = Tally(suit: Suit, count: nat)

  function TallyCount(t: Tally): int {
    t.count
  }

  /** Dictionary lookup: the index of the entry for `s`, or |ts| when absent. */
  function Find(ts: seq<Tally>, s: Suit): (k: nat)
    ensures k <= |ts|
    ensures k < |ts| ==> ts[k].suit == s
    ensures forall j :: 0 <= j < k ==> ts[j].suit != s
  {
    if ts == [] then 0
    else if ts[0].suit == s then 0
    else 1 + Find(ts[1..], s)
  }

  /** `counts.get(s, 0)`. */
  function Get(ts: seq<Tally>, s: Suit): nat {
    var k := Find(ts, s);
    if k < |ts| then ts[k].count else 0
  }

  /** `counts[s] = counts.get(s, 0) + 1`: a present key keeps its place, a new
      key goes to the end, as in a Python dict. */
  function Bump(ts: seq<Tally>, s: Suit): seq<Tally> {
    var k := Find(ts, s);
    if k < |ts| then ts[k := Tally(s, ts[k].count + 1)] else ts + [Tally(s, 1)]
  }

  /** The dictionary after the counting loop has run over all of `h`. */
  function Tallies(h: seq<Card>): seq<Tally> {
    if h == [] then [] else Bump(Tallies(h[..|h| - 1]), h[|h| - 1].suit)
  }

  /** Sum of the counts of a dictionary. */
  function Sum(ts: seq<Tally>): nat {
    if ts == [] then 0 else Sum(ts[..|ts| - 1]) + ts[|ts| - 1].count
  }

  /** No suit has two entries. */
  ghost predicate KeysDistinct(ts: seq<Tally>) {
    forall k1, k2 :: 0 <= k1 < k2 < |ts| ==> ts[k1].suit != ts[k2].suit
  }

  /** Every entry holds its suit's count in `h`, and every suit of `h` has an entry. */
  ghost predicate CountsMatch(h: seq<Card>, ts: seq<Tally>) {
    && (forall k :: 0 <= k < |ts| ==> ts[k].count == SuitCount(h, ts[k].suit) && ts[k].count > 0)
    && (forall s :: SuitCount(h, s) > 0 ==> Find(ts, s) < |ts|)
  }

  /** Keys stand in order of first appearance: before any card of a later
      key's suit, a card of every earlier key's suit has already appeared. */
  ghost predicate AppearanceOrder(h: seq<Card>, ts: seq<Tally>) {
    forall k1, k2, j :: 0 <= k1 < k2 < |ts| && 0 <= j < |h| && h[j].suit == ts[k2].suit
      ==> SuitCount(h[..j], ts[k1].suit) > 0
  }

  /** `ts` is the suit-count dictionary of `h`: one entry per suit present,
      each with that suit's count, keys in order of first appearance in `h`,
      counts adding up to |h|. */
  ghost predicate CountsOf(h: seq<Card>, ts: seq<Tally>) {
    KeysDistinct(ts) && CountsMatch(h, ts) && AppearanceOrder(h, ts) && Sum(ts) == |h|
  }

  lemma {:induction false} SumUpdate(ts: seq<Tally>, k: nat, t: Tally)
    requires k < |ts|
    ensures Sum(ts[k := t]) == Sum(ts) - ts[k].count + t.count
    decreases |ts|
  {
    var n := |ts|;
    var u := ts[k := t];
    if k == n - 1 {
      assert u[..n - 1] == ts[..n - 1];
    } else {
      assert u[..n - 1] == ts[..n - 1][k := t];
      SumUpdate(ts[..n - 1], k, t);
    }
  }

  lemma SumSnoc(ts: seq<Tally>, t: Tally)
    ensures Sum(ts + [t]) == Sum(ts) + t.count
  {
    assert (ts + [t])[..|ts|] == ts;
  }

  lemma {:induction false} FindIs(ts: seq<Tally>, s: Suit, k: nat)
    requires k <= |ts|
    requires k < |ts| ==> ts[k].suit == s
    requires forall j :: 0 <= j < k ==> ts[j].suit != s
    ensures Find(ts, s) == k
  {
  }

  lemma BumpKeysDistinct(ts: seq<Tally>, s: Suit)
    requires KeysDistinct(ts)
    ensures KeysDistinct(Bump(ts, s))
  {
  }

  lemma SuitCountSnocAll(h: seq<Card>, c: Card)
    ensures forall t :: SuitCount(h + [c], t) == SuitCount(h, t) + (if c.suit == t then 1 else 0)
  {
    forall t ensures SuitCount(h + [c], t) == SuitCount(h, t) + (if c.suit == t then 1 else 0) {
      SuitCountSnoc(h, c, t);
    }
  }

  lemma BumpCountsMatch(h: seq<Card>, ts: seq<Tally>, c: Card)
    requires KeysDistinct(ts) && CountsMatch(h, ts)
    ensures CountsMatch(h + [c], Bump(ts, c.suit))
  {
    var h', s, k := h + [c], c.suit, Find(ts, c.suit);
    var ts' := Bump(ts, s);
    SuitCountSnocAll(h, c);
    forall t | SuitCount(h', t) > 0 ensures Find(ts', t) < |ts'| {
      if t == s {
        FindIs(ts', t, k);
      } else {
        FindIs(ts', t, Find(ts, t));
      }
    }
  }

  /** A card at position j contributes to the count of its suit in h. */
  lemma SuitCountAt(h: seq<Card>, j: nat)
    requires j < |h|
    ensures SuitCount(h, h[j].suit) > 0
  {
    var s := h[j].suit;
    assert h == h[..j] + [h[j]] + h[j + 1..];
    SuitCountAppend(h[..j] + [h[j]], h[j + 1..], s);
    SuitCountSnoc(h[..j], h[j], s);
  }

  lemma BumpAppearanceOrder(h: seq<Card>, ts: seq<Tally>, c: Card)
    requires KeysDistinct(ts) && CountsMatch(h, ts) && AppearanceOrder(h, ts)
    ensures AppearanceOrder(h + [c], Bump(ts, c.suit))
  {
    var h', s, k := h + [c], c.suit, Find(ts, c.suit);
    var ts' := Bump(ts, s);
    assert h'[..|h|] == h;
    forall k1, k2, j | 0 <= k1 < k2 < |ts'| && 0 <= j < |h'| && h'[j].suit == ts'[k2].suit
      ensures SuitCount(h'[..j], ts'[k1].suit) > 0
    {
      if j < |h| {
        assert h'[..j] == h[..j] && h'[j] == h[j];
        if k2 == |ts| {
          SuitCountAt(h, j);
          assert false;
        }
      } else {
        assert k1 < |ts| && ts'[k1] == ts[k1];
      }
    }
  }

  /** Counting one more card keeps the dictionary faithful. */
  lemma BumpCountsOf(h: seq<Card>, ts: seq<Tally>, c: Card)
    requires CountsOf(h, ts)
    ensures CountsOf(h + [c], Bump(ts, c.suit))
  {
    var k := Find(ts, c.suit);
    BumpKeysDistinct(ts, c.suit);
    BumpCountsMatch(h, ts, c);
    BumpAppearanceOrder(h, ts, c);
    if k < |ts| {
      SumUpdate(ts, k, Tally(c.suit, ts[k].count + 1));
    } else {
      SumSnoc(ts, Tally(c.suit, 1));
    }
  }

  /** The counting loop builds the suit-count dictionary of the hand. */
  lemma {:induction false} TalliesCountsOf(h: seq<Card>)
    ensures CountsOf(h, Tallies(h))
  {
    if h != [] {
      var h' := h[..|h| - 1];
      TalliesCountsOf(h');
      assert h == h' + [h[|h| - 1]];
      BumpCountsOf(h', Tallies(h'), h[|h| - 1]);
    }
  }

  /** `counts.get(s, 0)` on the dictionary of `h` is the number of cards of suit `s` in `h`. */
  lemma GetTallies(h: seq<Card>, s: Suit)
    ensures Get(Tallies(h), s) == SuitCount(h, s)
  {
    TalliesCountsOf(h);
  }

  /** What evaluate_hand returns. */
  datatype Metrics = Metrics(suitCounts: seq<Tally>, bestSuit: Suit, bestCount: nat)

  /** The evaluation of a non-empty hand (max over an empty dict raises):
      its counts, and the leading suit chosen by `max(counts, key=counts.get)`,
      that is, the first suit in dictionary order with the largest count. */
  function Evaluate(h: seq<Card>): (m: Metrics)
    requires |h| > 0
    ensures m.suitCounts == Tallies(h)
    ensures m.bestCount == SuitCount(h, m.bestSuit) && m.bestCount > 0
    ensures forall s :: SuitCount(h, s) <= m.bestCount
  {
    var ts := Tallies(h);
    TalliesCountsOf(h);
    var i := FirstMaxBy(ts, TallyCount);
    Metrics(ts, ts[i].suit, ts[i].count)
  }

  /** The counts of the evaluation add up to the hand size. */
  lemma EvaluateCountsSum(h: seq<Card>)
    requires |h| > 0
    ensures Sum(Evaluate(h).suitCounts) == |h|
    ensures forall s :: Get(Evaluate(h).suitCounts, s) == SuitCount(h, s)
  {
    TalliesCountsOf(h);
    forall s ensures Get(Evaluate(h).suitCounts, s) == SuitCount(h, s) {
      GetTallies(h, s);
    }
  }

  /** The first key with the top count belongs to the suit that appears
      first among the suits with that count. */
  lemma {:induction false} FirstTopKeyAppearsFirst(h: seq<Card>, ts: seq<Tally>, i: nat, j: nat)
    requires CountsMatch(h, ts) && AppearanceOrder(h, ts)
    requires i < |ts| && forall k :: 0 <= k < i ==> ts[k].count < ts[i].count
    requires j < |h| && SuitCount(h, h[j].suit) == ts[i].count
    ensures SuitCount(h[..j + 1], ts[i].suit) > 0
  {
    var best, s := ts[i].suit, h[j].suit;
    assert h[..j + 1] == h[..j] + [h[j]];
    SuitCountSnoc(h[..j], h[j], best);
    if s != best {
      SuitCountAt(h, j);
      var k := Find(ts, s);
      assert ts[k].count == ts[i].count;
      assert SuitCount(h[..j], ts[i].suit) > 0;
    }
  }

  /** Ties go to the suit that shows up first in the hand: wherever a card of a
      suit with the top count sits, a card of the leading suit sits at or before it. */
  lemma EvaluateTieBreak(h: seq<Card>, j: nat)
    requires j < |h|
    requires SuitCount(h, h[j].suit) == Evaluate(h).bestCount
    ensures SuitCount(h[..j + 1], Evaluate(h).bestSuit) > 0
  {
    var ts := Tallies(h);
    TalliesCountsOf(h);
    var i := FirstMaxBy(ts, TallyCount);
    FirstTopKeyAppearsFirst(h, ts, i, j);
  }

  /** The counting loop of evaluate_hand, followed by the built-in max; the
      dictionary is the association list `counts`. */
  method EvaluateHand(hand: seq<Card>) returns (m: Metrics)
    requires |hand| > 0
    ensures m == Evaluate(hand)
  {
    var counts: seq<Tally> := [];
    for i := 0 to |hand|
      invariant counts == Tallies(hand[..i])
    {
      var s := hand[i].suit;
      var k := Find(counts, s);
      if k < |counts| {
        counts := counts[k := Tally(s, counts[k].count + 1)];
      } else {
        counts := counts + [Tally(s, 1)];
      }
      assert hand[..i + 1][..i] == hand[..i];
    }
    assert hand[..|hand|] == hand;
    var b := FirstMaxBy(counts, TallyCount);
    m := Metrics(counts, counts[b].suit, counts[b].count);
  }

  /** check_winner: the leading suit has reached the target, which happens
      exactly when some suit has. */
  function CheckWinner(h: seq<Card>, d: Difficulty): (won: bool)
    requires |h| > 0
    ensures won <==> exists s :: SuitCount(h, s) >= Target(d)
  {
    var m := Evaluate(h);
    assert m.bestCount == SuitCount(h, m.bestSuit);
    m.bestCount >= Target(d)
  }
}
