/**
 * The computer's decision: the win-probability estimate and the choice of
 * the card to discard.
 */
module Heuristic {
  import opened Cards
  import opened Seqs
  import opened Hand

  /** `max(0.0, min(1.0, x))`. */
  function Clamp(x: real): (y: real)
    ensures 0.0 <= y <= 1.0
    ensures 0.0 <= x <= 1.0 ==> y == x
    ensures x > 1.0 ==> y == 1.0
    ensures x < 0.0 ==> y == 0.0
  {
    if x < 0.0 then 0.0 else if x > 1.0 then 1.0 else x
  }

  /** get_winning_probability, over exact reals: certain once the leading
      suit reaches the target, otherwise (remaining / 13) / cards_needed,
      clamped to [0, 1]. */
  function WinningProbability(h: seq<Card>, remaining: nat, d: Difficulty): (p: real)
    requires |h| > 0
    ensures 0.0 <= p <= 1.0
    ensures Evaluate(h).bestCount >= Target(d) ==> p == 1.0
  {
    var need := Target(d) - Evaluate(h).bestCount;
    if need <= 0 then 1.0 else Clamp((remaining as real / 13.0) / need as real)
  }

  /** Scaling both sides by a positive factor keeps a strict comparison; a
      lemma of its own, so that the product stays out of the callers' proofs. */
  lemma ScaleBelow(x: real, c: real, t: real)
    requires c > 0.0
    ensures x < t <==> x * c < t * c
  {
  }

  /** The ratio times 13 n gives back r; a lemma of its own for the same reason. */
  lemma RatioTimesDivisor(r: nat, n: nat)
    requires n > 0
    ensures ((r as real / 13.0) / n as real) * (13.0 * n as real) == r as real
  {
  }

  /** The same for a non-strict comparison. */
  lemma ScaleAtMost(x: real, c: real, t: real)
    requires c > 0.0
    ensures x <= t <==> x * c <= t * c
  {
  }

  /** The unclamped ratio (r / 13) / n lies below 3/10 exactly when 10 r < 39 n. */
  lemma RatioThreshold(r: nat, n: nat)
    requires n > 0
    ensures (r as real / 13.0) / n as real < 0.3 <==> 10 * r < 39 * n
  {
    var c := 13.0 * n as real;
    var q := (r as real / 13.0) / n as real;
    RatioTimesDivisor(r, n);
    ScaleBelow(q, c, 0.3);
    assert r as real < 0.3 * c <==> 10 * r < 39 * n;
  }

  /** The unclamped ratio grows with r. */
  lemma RatioMonotone(r1: nat, r2: nat, n: nat)
    requires n > 0 && r1 <= r2
    ensures (r1 as real / 13.0) / n as real <= (r2 as real / 13.0) / n as real
  {
    RatioTimesDivisor(r1, n);
    RatioTimesDivisor(r2, n);
    ScaleAtMost((r1 as real / 13.0) / n as real, 13.0 * n as real, (r2 as real / 13.0) / n as real);
  }

  /** A larger deck never lowers the estimate. */
  lemma ProbabilityMonotone(h: seq<Card>, r1: nat, r2: nat, d: Difficulty)
    requires |h| > 0 && r1 <= r2
    ensures WinningProbability(h, r1, d) <= WinningProbability(h, r2, d)
  {
    var need := Target(d) - Evaluate(h).bestCount;
    if need > 0 {
      RatioMonotone(r1, r2, need);
    }
  }

  /** The 0.3 branch of the discard rule, in integers: the estimate is below
      0.3 exactly when the target is not met and 10 * remaining < 39 * needed. */
  lemma ProbabilityBelowThreshold(h: seq<Card>, remaining: nat, d: Difficulty)
    requires |h| > 0
    ensures WinningProbability(h, remaining, d) < 0.3 <==>
      Evaluate(h).bestCount < Target(d) && 10 * remaining < 39 * (Target(d) - Evaluate(h).bestCount)
  {
    var need := Target(d) - Evaluate(h).bestCount;
    if need > 0 {
      RatioThreshold(remaining, need);
    }
  }

  /** The estimate is never exactly 0.3: that would need 10 * remaining ==
      39 * needed with 1 <= needed <= 6, and 39 * needed is never a multiple
      of 10 in that range. */
  lemma ProbabilityNotAtThreshold(h: seq<Card>, remaining: nat, d: Difficulty)
    requires |h| > 0
    ensures WinningProbability(h, remaining, d) != 0.3
  {
    var need := Target(d) - Evaluate(h).bestCount;
    if need > 0 {
      RatioThreshold(remaining, need);
    }
  }

  /** Below the threshold, the ratio keeps a distance of 1/780 from 0.3. */
  lemma RatioBelowMargin(r: nat, n: nat)
    requires 1 <= n <= 6 && 10 * r < 39 * n
    ensures (r as real / 13.0) / n as real <= 0.3 - 1.0 / 780.0
  {
  }

  /** Above the threshold, the ratio keeps a distance of 1/780 from 0.3. */
  lemma RatioAboveMargin(r: nat, n: nat)
    requires 1 <= n <= 6 && 10 * r > 39 * n
    ensures (r as real / 13.0) / n as real >= 0.3 + 1.0 / 780.0
  {
    var c := 13.0 * n as real;
    var q := (r as real / 13.0) / n as real;
    RatioTimesDivisor(r, n);
    ScaleAtMost(0.3 + 1.0 / 780.0, c, q);
    assert 10.0 * r as real >= 39.0 * n as real + 1.0;
    assert (0.3 + 1.0 / 780.0) * c == 3.9 * n as real + n as real / 60.0;
    assert n as real / 60.0 <= 0.1;
    assert r as real >= 3.9 * n as real + n as real / 60.0;
  }

  /** The comparison with 0.3 has a margin of at least 1/780 on either side,
      far wider than any rounding of the two floating-point divisions. */
  lemma ProbabilityMargin(h: seq<Card>, remaining: nat, d: Difficulty)
    requires |h| > 0
    ensures WinningProbability(h, remaining, d) < 0.3 ==> WinningProbability(h, remaining, d) <= 0.3 - 1.0 / 780.0
    ensures WinningProbability(h, remaining, d) > 0.3 ==> WinningProbability(h, remaining, d) >= 0.3 + 1.0 / 780.0
  {
    var need := Target(d) - Evaluate(h).bestCount;
    if need > 0 {
      assert need <= 6;
      if 10 * remaining < 39 * need {
        RatioBelowMargin(remaining, need);
      } else {
        assert 10 * remaining != 39 * need;
        RatioAboveMargin(remaining, need);
      }
    }
  }

  /** `[c for c in h if c.suit != s]`. */
  function OffSuit(h: seq<Card>, s: Suit): (r: seq<Card>)
    ensures |r| <= |h|
    ensures forall j :: 0 <= j < |r| ==> r[j] in h && r[j].suit != s
  {
    if h == [] then []
    else
      var last := h[|h| - 1];
      OffSuit(h[..|h| - 1], s) + (if last.suit != s then [last] else [])
  }

  /** The comprehension over a prefix of `h` is a prefix of the comprehension over `h`. */
  lemma {:induction false} OffSuitPrefix(h: seq<Card>, s: Suit, k: nat)
    requires k <= |h|
    ensures |OffSuit(h[..k], s)| <= |OffSuit(h, s)|
    ensures OffSuit(h, s)[..|OffSuit(h[..k], s)|] == OffSuit(h[..k], s)
  {
    if k < |h| {
      var h' := h[..|h| - 1];
      assert h[..k] == h'[..k];
      OffSuitPrefix(h', s, k);
    } else {
      assert h[..k] == h;
    }
  }

  /** `c` is what `max([x for x in h if x.suit != s], key=get_value)` returns,
      said of `h` itself: an off-suit card of top value, with no off-suit card
      of equal value before its first occurrence. */
  ghost predicate IsFirstMaxOffSuit(h: seq<Card>, s: Suit, c: Card) {
    && c in h && c.suit != s
    && (forall k :: 0 <= k < |h| && h[k].suit != s ==> Value(h[k]) <= Value(c))
    && (forall k :: 0 <= k < IndexOf(h, c) && h[k].suit != s ==> Value(h[k]) < Value(c))
  }

  /** An off-suit card at position k of `h` lands in the comprehension right
      after the off-suit cards of h[..k]. */
  lemma {:induction false} OffSuitPosition(h: seq<Card>, s: Suit, k: nat)
    requires k < |h| && h[k].suit != s
    ensures |OffSuit(h[..k], s)| < |OffSuit(h, s)|
    ensures OffSuit(h, s)[|OffSuit(h[..k], s)|] == h[k]
    ensures OffSuit(h[..k + 1], s) == OffSuit(h[..k], s) + [h[k]]
  {
    OffSuitPrefix(h, s, k + 1);
    assert h[..k + 1][..k] == h[..k];
    assert OffSuit(h[..k + 1], s) == OffSuit(h[..k], s) + [h[k]];
  }

  /** No off-suit card of `h` beats the comprehension's first maximum. */
  lemma {:induction false} OffSuitMaxBounds(h: seq<Card>, s: Suit, k: nat)
    requires k < |h| && h[k].suit != s
    ensures |OffSuit(h, s)| > 0
    ensures Value(h[k]) <= Value(OffSuit(h, s)[FirstMaxBy(OffSuit(h, s), Value)])
  {
    OffSuitPosition(h, s, k);
    var off := OffSuit(h, s);
    var m := |OffSuit(h[..k], s)|;
    assert off[m] == h[k];
  }

  /** If the comprehension's i-th card first occurs in `h` after position k,
      and h[k] is off-suit, then h[k] sits at an earlier position than i in
      the comprehension. */
  lemma {:induction false} OffSuitBefore(h: seq<Card>, s: Suit, i: nat, k: nat)
    requires i < |OffSuit(h, s)| && OffSuit(h, s)[i] in h
    requires k < IndexOf(h, OffSuit(h, s)[i]) && h[k].suit != s
    ensures |OffSuit(h[..k], s)| < i
  {
    var off := OffSuit(h, s);
    var j := IndexOf(h, off[i]);
    var pre := OffSuit(h[..k + 1], s);
    OffSuitPosition(h, s, k);
    OffSuitPrefix(h, s, k + 1);
    assert h[..k + 1] == h[..j][..k + 1];
    assert forall x :: x in pre ==> x in h[..j];
    assert off[i] !in pre;
  }

  /** An off-suit card before the first occurrence of the comprehension's
      first maximum has a strictly smaller value. */
  lemma {:induction false} OffSuitMaxStrict(h: seq<Card>, s: Suit, k: nat)
    requires |OffSuit(h, s)| > 0
    requires OffSuit(h, s)[FirstMaxBy(OffSuit(h, s), Value)] in h
    requires k < IndexOf(h, OffSuit(h, s)[FirstMaxBy(OffSuit(h, s), Value)]) && h[k].suit != s
    ensures Value(h[k]) < Value(OffSuit(h, s)[FirstMaxBy(OffSuit(h, s), Value)])
  {
    var off := OffSuit(h, s);
    var i := FirstMaxBy(off, Value);
    OffSuitPosition(h, s, k);
    OffSuitBefore(h, s, i, k);
    var m := |OffSuit(h[..k], s)|;
    assert off[m] == h[k];
  }

  lemma {:induction false} OffSuitFirstMax(h: seq<Card>, s: Suit)
    requires |OffSuit(h, s)| > 0
    ensures IsFirstMaxOffSuit(h, s, OffSuit(h, s)[FirstMaxBy(OffSuit(h, s), Value)])
  {
    var off := OffSuit(h, s);
    var c := off[FirstMaxBy(off, Value)];
    assert c in h && c.suit != s;
    forall k | 0 <= k < |h| && h[k].suit != s ensures Value(h[k]) <= Value(c) {
      OffSuitMaxBounds(h, s, k);
    }
    forall k | 0 <= k < IndexOf(h, c) && h[k].suit != s ensures Value(h[k]) < Value(c) {
      OffSuitMaxStrict(h, s, k);
    }
  }

  /** What choose_card_to_discard returns. */
  datatype Decision = Decision(card: Card, probability: real)

  /** choose_card_to_discard for the hand plus its new card: below 0.3 the
      highest card goes, otherwise the highest card outside the leading suit,
      or the highest card overall when every card is of the leading suit.
      Both settings use this rule; the setting only changes the target inside
      the estimate. ChooseDiscardRule states what the choice is. */
  function ChooseDiscard(hand: seq<Card>, newCard: Card, deck: seq<Card>, d: Difficulty): (r: Decision)
    ensures r.card in hand + [newCard]
    ensures r.probability == WinningProbability(hand + [newCard], |deck|, d)
  {
    var full := hand + [newCard];
    var p := WinningProbability(full, |deck|, d);
    var best := Evaluate(full).bestSuit;
    if p < 0.3 then
      Decision(full[FirstMaxBy(full, Value)], p)
    else
      var off := OffSuit(full, best);
      if |off| > 0 then Decision(off[FirstMaxBy(off, Value)], p)
      else Decision(full[FirstMaxBy(full, Value)], p)
  }

  /** The discarded card is what the `max` calls of choose_card_to_discard return: the first
      card of top value in the whole hand when the estimate is below 0.3; else
      the first off-suit card of top value when there is one, and the first
      card of top value when every card is of the leading suit. */
  lemma ChooseDiscardRule(hand: seq<Card>, newCard: Card, deck: seq<Card>, d: Difficulty)
    ensures var full, r := hand + [newCard], ChooseDiscard(hand, newCard, deck, d);
      && (r.probability < 0.3 ==> IsFirstMax(full, Value, r.card))
      && (r.probability >= 0.3 && (exists c :: c in full && c.suit != Evaluate(full).bestSuit)
          ==> IsFirstMaxOffSuit(full, Evaluate(full).bestSuit, r.card))
      && (r.probability >= 0.3 && (forall c :: c in full ==> c.suit == Evaluate(full).bestSuit)
          ==> IsFirstMax(full, Value, r.card))
  {
    var full := hand + [newCard];
    var best := Evaluate(full).bestSuit;
    FirstMaxByIsFirstMax(full, Value);
    var off := OffSuit(full, best);
    if |off| > 0 {
      OffSuitFirstMax(full, best);
    } else {
      forall k | 0 <= k < |full| ensures full[k].suit == best {
        if full[k].suit != best {
          OffSuitPosition(full, best, k);
        }
      }
    }
  }
}
