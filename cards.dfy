/**
 * Cards, their point values, the 52-card deck and the deal.
 */
module Cards {

  datatype Suit = Kupa | Maca | Sinek | Karo

  /** The thirteen values, in the order the deck is built: 2 to 10, J, Q, K, A. */
  datatype Rank = Two | Three | Four | Five | Six | Seven | Eight | Nine | Ten
                | Jack | Queen | King | Ace

  /** A card is a value: two cards are equal exactly when suit and rank agree. */
  datatype Card = Card(suit: Suit, rank: Rank)

  const Suits: seq<Suit> := [Kupa, Maca, Sinek, Karo]
  const Ranks: seq<Rank> := [Two, Three, Four, Five, Six, Seven, Eight, Nine, Ten,
                             Jack, Queen, King, Ace]

  /** Point value of a card: J, Q and K count 10, A counts 1 and a number
      card its face value, which is its position in Ranks plus two. */
  function Value(c: Card): (v: int)
    ensures 1 <= v <= 10
    ensures c.rank in {Jack, Queen, King} ==> v == 10
    ensures c.rank == Ace ==> v == 1
    ensures forall i :: 0 <= i < 9 && Ranks[i] == c.rank ==> v == i + 2
  {
    match c.rank
    case Jack | Queen | King => 10
    case Ace => 1
    case Two => 2
    case Three => 3
    case Four => 4
    case Five => 5
    case Six => 6
    case Seven => 7
    case Eight => 8
    case Nine => 9
    case Ten => 10
  }

  /** Position of a suit in Suits. */
  function SuitIndex(s: Suit): (i: nat)
    ensures i < |Suits| && Suits[i] == s
  {
    match s
    case Kupa => 0
    case Maca => 1
    case Sinek => 2
    case Karo => 3
  }

  /** Position of a rank in Ranks. */
  function RankIndex(r: Rank): (i: nat)
    ensures i < |Ranks| && Ranks[i] == r
  {
    match r
    case Two => 0
    case Three => 1
    case Four => 2
    case Five => 3
    case Six => 4
    case Seven => 5
    case Eight => 6
    case Nine => 7
    case Ten => 8
    case Jack => 9
    case Queen => 10
    case King => 11
    case Ace => 12
  }

  /** Where a card sits in the unshuffled deck. */
  function Ord(c: Card): nat {
    13 * SuitIndex(c.suit) + RankIndex(c.rank)
  }

  /** The thirteen cards of one suit, in rank order. */
  function SuitRow(s: Suit): seq<Card> {
    seq(13, j requires 0 <= j < 13 => Card(s, Ranks[j]))
  }

  /** One row per suit, concatenated: `[Card(s, v) for s in ss for v in values]`. */
  function Rows(ss: seq<Suit>): seq<Card> {
    if ss == [] then [] else SuitRow(ss[0]) + Rows(ss[1..])
  }

  /** The deck before shuffling, suit-major. */
  function BaseDeck(): seq<Card> {
    Rows(Suits)
  }

  lemma {:induction false} RowsAt(ss: seq<Suit>)
    ensures |Rows(ss)| == 13 * |ss|
    ensures forall i :: 0 <= i < 13 * |ss| ==> Rows(ss)[i] == Card(ss[i / 13], Ranks[i % 13])
  {
    if ss != [] {
      RowsAt(ss[1..]);
      var r := Rows(ss);
      forall i | 0 <= i < 13 * |ss|
        ensures r[i] == Card(ss[i / 13], Ranks[i % 13])
      {
        if i >= 13 {
          assert r[i] == Rows(ss[1..])[i - 13];
          assert (i - 13) / 13 == i / 13 - 1 && (i - 13) % 13 == i % 13;
        }
      }
    }
  }

  /** The base deck has 52 cards, and card `c` is the one at position Ord(c). */
  lemma BaseDeckAt()
    ensures |BaseDeck()| == 52
    ensures forall i :: 0 <= i < 52 ==> BaseDeck()[i] == Card(Suits[i / 13], Ranks[i % 13])
    ensures forall c :: BaseDeck()[Ord(c)] == c
    ensures forall i :: 0 <= i < 52 ==> Ord(BaseDeck()[i]) == i
  {
    RowsAt(Suits);
    forall i | 0 <= i < 52 ensures Ord(BaseDeck()[i]) == i {
      var a, b := i / 13, i % 13;
      assert SuitIndex(Suits[a]) == a;
      assert RankIndex(Ranks[b]) == b;
    }
  }

  /** No two positions of a sequence hold the same card. */
  ghost predicate Distinct(s: seq<Card>) {
    forall i, j :: 0 <= i < j < |s| ==> s[i] != s[j]
  }

  /** The unshuffled deck holds every card exactly once. */
  lemma BaseDeckAllCards()
    ensures |BaseDeck()| == 52
    ensures Distinct(BaseDeck())
    ensures forall c :: c in BaseDeck()
  {
    BaseDeckAt();
    forall c ensures c in BaseDeck() {
      assert BaseDeck()[Ord(c)] == c;
    }
  }

  /** Number of cards of suit `s` in `h`. */
  function SuitCount(h: seq<Card>, s: Suit): (n: nat)
    ensures n <= |h|
  {
    if h == [] then 0
    else SuitCount(h[..|h| - 1], s) + (if h[|h| - 1].suit == s then 1 else 0)
  }

  lemma SuitCountSnoc(h: seq<Card>, c: Card, s: Suit)
    ensures SuitCount(h + [c], s) == SuitCount(h, s) + (if c.suit == s then 1 else 0)
  {
    assert (h + [c])[..|h|] == h;
  }

  lemma {:induction false} SuitCountAppend(a: seq<Card>, b: seq<Card>, s: Suit)
    ensures SuitCount(a + b, s) == SuitCount(a, s) + SuitCount(b, s)
  {
    if b == [] {
      assert a + b == a;
    } else {
      var b', y := b[..|b| - 1], b[|b| - 1];
      assert a + b == (a + b') + [y];
      assert b == b' + [y];
      SuitCountAppend(a, b', s);
      SuitCountSnoc(a + b', y, s);
      SuitCountSnoc(b', y, s);
    }
  }

  /** A suit count depends only on which cards are held, not on their order. */
  lemma {:induction false} SuitCountMultiset(a: seq<Card>, b: seq<Card>, s: Suit)
    requires multiset(a) == multiset(b)
    ensures SuitCount(a, s) == SuitCount(b, s)
    decreases |a|
  {
    if a == [] {
      assert |b| == |multiset(b)| == 0;
    } else {
      var a', x := a[..|a| - 1], a[|a| - 1];
      assert a == a' + [x];
      assert x in multiset(b);
      var k :| 0 <= k < |b| && b[k] == x;
      var b' := b[..k] + b[k + 1..];
      assert b == b[..k] + [x] + b[k + 1..];
      assert multiset(b) == multiset(b[..k]) + multiset{x} + multiset(b[k + 1..]);
      assert multiset(b') == multiset(b[..k]) + multiset(b[k + 1..]);
      assert multiset(a) == multiset(a') + multiset{x};
      assert multiset(a') == multiset(a) - multiset{x};
      assert multiset(b') == multiset(b) - multiset{x};
      SuitCountMultiset(a', b', s);
      SuitCountSnoc(a', x, s);
      SuitCountAppend(b[..k] + [x], b[k + 1..], s);
      SuitCountAppend(b[..k], b[k + 1..], s);
      SuitCountSnoc(b[..k], x, s);
    }
  }

  /** If every card in `h` has suit `t`, its count of `s` is all or nothing. */
  lemma {:induction false} SuitCountUniform(h: seq<Card>, t: Suit, s: Suit)
    requires forall i :: 0 <= i < |h| ==> h[i].suit == t
    ensures SuitCount(h, s) == if s == t then |h| else 0
  {
    if h != [] {
      SuitCountUniform(h[..|h| - 1], t, s);
    }
  }

  /** 13 cards of every suit in the unshuffled deck. */
  lemma BaseDeckSuitCount(s: Suit)
    ensures SuitCount(BaseDeck(), s) == 13
  {
    var k, m, n, o := SuitRow(Kupa), SuitRow(Maca), SuitRow(Sinek), SuitRow(Karo);
    assert Rows(Suits[3..]) == o + Rows([]);
    assert Rows(Suits[2..]) == n + o;
    assert Rows(Suits[1..]) == m + n + o;
    assert BaseDeck() == k + (m + n + o);
    SuitCountUniform(k, Kupa, s);
    SuitCountUniform(m, Maca, s);
    SuitCountUniform(n, Sinek, s);
    SuitCountUniform(o, Karo, s);
    SuitCountAppend(k, m + n + o, s);
    SuitCountAppend(m, n + o, s);
    SuitCountAppend(n, o, s);
  }

  /** A shuffled deck: some reordering of the base deck. The shuffle itself is
      random and stays outside the model; any permutation is allowed. */
  ghost predicate IsShuffledDeck(d: seq<Card>) {
    multiset(d) == multiset(BaseDeck())
  }

  lemma {:induction false} DistinctCountsAtMostOne(s: seq<Card>, x: Card)
    requires Distinct(s)
    ensures multiset(s)[x] <= 1
  {
    if s != [] {
      assert s == [s[0]] + s[1..];
      DistinctCountsAtMostOne(s[1..], x);
      if x == s[0] {
        assert x !in s[1..];
      }
    }
  }

  lemma RepeatedCountsTwice(s: seq<Card>, i: nat, j: nat)
    requires i < j < |s| && s[i] == s[j]
    ensures multiset(s)[s[i]] >= 2
  {
    assert s == s[..j] + [s[j]] + s[j + 1..];
    assert s[..j][i] == s[i];
  }

  lemma ShuffledDeckDistinct(d: seq<Card>)
    requires IsShuffledDeck(d)
    ensures Distinct(d)
  {
    BaseDeckAllCards();
    forall i, j | 0 <= i < j < |d| ensures d[i] != d[j] {
      if d[i] == d[j] {
        RepeatedCountsTwice(d, i, j);
        DistinctCountsAtMostOne(BaseDeck(), d[i]);
      }
    }
  }

  lemma ShuffledDeckComplete(d: seq<Card>)
    requires IsShuffledDeck(d)
    ensures |d| == 52
    ensures forall c :: c in d
  {
    BaseDeckAllCards();
    var b := BaseDeck();
    assert |d| == |multiset(d)| == |multiset(b)| == |b|;
    forall c ensures c in d {
      assert c in b;
      assert c in multiset(b);
      assert c in multiset(d);
    }
  }

  /** Whatever the shuffle, the deck has 52 pairwise-distinct cards, contains
      every card, and holds 13 cards of each suit. */
  lemma ShuffledDeckFacts(d: seq<Card>)
    requires IsShuffledDeck(d)
    ensures |d| == 52
    ensures Distinct(d)
    ensures forall c :: c in d
    ensures forall s :: SuitCount(d, s) == 13
  {
    ShuffledDeckComplete(d);
    ShuffledDeckDistinct(d);
    forall s ensures SuitCount(d, s) == 13 {
      SuitCountMultiset(d, BaseDeck(), s);
      BaseDeckSuitCount(s);
    }
  }

  /** Sum of the point values of a hand. */
  function Score(h: seq<Card>): (t: nat)
    ensures |h| <= t <= 10 * |h|
  {
    if h == [] then 0 else Score(h[..|h| - 1]) + Value(h[|h| - 1])
  }

  lemma {:induction false} ScoreAppend(a: seq<Card>, b: seq<Card>)
    ensures Score(a + b) == Score(a) + Score(b)
  {
    if b == [] {
      assert a + b == a;
    } else {
      var b' := b[..|b| - 1];
      assert (a + b)[..|a + b| - 1] == a + b';
      assert (a + b)[|a + b| - 1] == b[|b| - 1];
      ScoreAppend(a, b');
    }
  }

  function Min(a: int, b: int): int {
    if a <= b then a else b
  }

  /** The three parts of a deal. */
  datatype Deal = Deal(player: seq<Card>, computer: seq<Card>, rest: seq<Card>)

  /** Slices `deck[:n]`, `deck[n:2n]` and `deck[2n:]`; slices past the end are
      cut short, as in Python. */
  function DealCards(deck: seq<Card>, n: nat): (d: Deal)
    ensures d.player + d.computer + d.rest == deck
    ensures |deck| >= 2 * n ==> |d.player| == n && |d.computer| == n
    ensures |deck| < 2 * n ==> d.rest == []
    ensures |deck| <= n ==> d.player == deck
  {
    var a := Min(n, |deck|);
    var b := Min(2 * n, |deck|);
    assert deck == deck[..a] + deck[a..b] + deck[b..];
    Deal(deck[..a], deck[a..b], deck[b..])
  }
}
