/**
  The deck of 52 playing cards and the data a card is drawn with: each face
  is a code point of Unicode's "Playing Cards" block and a colour.
*/
module PlayingCards {
  import opened Wrappers
  import opened ClrTypes

  datatype CardMark = Spade | Heart | Diamond | Club

  /** The marks in the order AddCardAllKind adds them. */
  const Marks: seq<CardMark> := [Spade, Heart, Diamond, Club]

  const NumbersPerMark: nat := 13
  const DeckSize: nat := 52

  function MarkIndex(mark: CardMark): (k: nat)
    ensures k < |Marks| && Marks[k] == mark
  {
    match mark
    case Spade => 0
    case Heart => 1
    case Diamond => 2
    case Club => 3
  }

  /** C#'s unchecked int arithmetic: the result reduced into the 32-bit two's-complement range. */
  function Wrap32(x: int): (r: int32)
    ensures InInt32(x) ==> r == x
    ensures (r - x) % 0x1_0000_0000 == 0
  {
    (x + 0x8000_0000) % 0x1_0000_0000 - 0x8000_0000
  }

  // ---------------------------------------------------------------------
  // CardImage
  // ---------------------------------------------------------------------

  const BackCodePoint: int := 0x1F0A0
  const Black: string := "black"
  const Red: string := "red"

  function MarkBase(mark: CardMark): int {
    match mark
    case Spade => 0x1F0A1
    case Heart => 0x1F0B1
    case Diamond => 0x1F0C1
    case Club => 0x1F0D1
  }

  /**
    The front image's code point: numbers below 12 sit at base + number - 1;
    from 12 on one slot is skipped (U+1F0AC and its kin are the Knight, which
    a 52-card deck has no use for). The int arithmetic wraps as C#'s does.
  */
  function FrontCodePoint(mark: CardMark, number: int32): (r: int32)
    // for the numbers a card carries: inside the mark's row, never the Knight
    ensures 1 <= number <= 13 ==> MarkBase(mark) <= r <= MarkBase(mark) + 13 && r != MarkBase(mark) + 11
  {
    var difference := if number < 12 then Wrap32(number - 1) else number;
    Wrap32(MarkBase(mark) + difference)
  }

  /** Spades and clubs are drawn black, hearts and diamonds red. */
  function MarkColor(mark: CardMark): (c: string)
    ensures c == Red <==> mark == Heart || mark == Diamond
    ensures c == Black || c == Red
  {
    match mark
    case Spade => Black
    case Heart => Red
    case Diamond => Red
    case Club => Black
  }

  /** Every face of the deck has its own code point. */
  lemma FrontCodePointInjective(m1: CardMark, n1: int32, m2: CardMark, n2: int32)
    requires 1 <= n1 <= 13 && 1 <= n2 <= 13
    requires FrontCodePoint(m1, n1) == FrontCodePoint(m2, n2)
    ensures m1 == m2 && n1 == n2
  {
  }

  /** ImageSize; a value outside the three named ones is what C# allows an enum to hold by a cast. */
  datatype ImageSize = Small | Middle | Large | OtherSize(value: int)

  function SizeStyle(size: ImageSize): (r: string)
    ensures size.Small? ==> r == "font-size: 5rem;"
    ensures size.Large? ==> r == "font-size: 25rem;"
    // MIDDLE, and any value without a name, is 15rem
    ensures !size.Small? && !size.Large? ==> r == "font-size: 15rem;"
  {
    var sizeStyle := match size
      case Small => "5rem"
      case Middle => "15rem"
      case Large => "25rem"
      case _ => "15rem";
    "font-size: " + sizeStyle + ";"
  }

  function ColorStyle(color: string): string {
    "color: " + color + ";"
  }

  const LineHeight: string := "line-height: 1em;"

  /** The span CreateHtmlString writes: its three style declarations and the code point shown. */
  datatype Span = Span(sizeStyle: string, colorStyle: string, lineHeight: string, codePoint: int)

  class CardImage {
    const frontCodePoint: int
    const backCodePoint: int
    const color: string

    /** The image of a card is fixed by its mark and number. */
    ghost predicate Valid()
      reads this
    {
      backCodePoint == BackCodePoint && (color == Black || color == Red)
    }

    constructor (mark: CardMark, number: int32)
      ensures frontCodePoint == FrontCodePoint(mark, number)
      ensures color == MarkColor(mark)
      ensures backCodePoint == BackCodePoint
      ensures Valid()
    {
      var difference: int32;
      if number < 12 {
        difference := Wrap32(number - 1);
      } else {
        difference := number;
      }
      if mark == Spade {
        frontCodePoint := Wrap32(0x1F0A1 + difference);
        color := Black;
      } else if mark == Heart {
        frontCodePoint := Wrap32(0x1F0B1 + difference);
        color := Red;
      } else if mark == Diamond {
        frontCodePoint := Wrap32(0x1F0C1 + difference);
        color := Red;
      } else {
        frontCodePoint := Wrap32(0x1F0D1 + difference);
        color := Black;
      }
      backCodePoint := BackCodePoint;
    }

    /** The back is drawn black whatever the mark; the front in the mark's colour. */
    function CreateHtmlString(size: ImageSize, isBackImage: bool): (h: Span)
      reads this
      requires Valid()
      ensures h.sizeStyle == SizeStyle(size) && h.lineHeight == LineHeight
      ensures isBackImage ==> h.codePoint == BackCodePoint && h.colorStyle == ColorStyle(Black)
      ensures !isBackImage ==> h.codePoint == frontCodePoint && h.colorStyle == ColorStyle(color)
    {
      var color := if isBackImage then Black else this.color;
      var image := if isBackImage then backCodePoint else frontCodePoint;
      Span(SizeStyle(size), ColorStyle(color), LineHeight, image)
    }

    function BackImageToHtml(size: ImageSize): (h: Span)
      reads this
      requires Valid()
      ensures h.codePoint == BackCodePoint && h.colorStyle == ColorStyle(Black)
    {
      CreateHtmlString(size, true)
    }

    function FrontImageToHtml(size: ImageSize): (h: Span)
      reads this
      requires Valid()
      ensures h.codePoint == frontCodePoint && h.colorStyle == ColorStyle(color)
    {
      CreateHtmlString(size, false)
    }

    /** The overloads without a size draw at MIDDLE, 15rem. */
    function DefaultBackImageToHtml(): (h: Span)
      reads this
      requires Valid()
      ensures h == BackImageToHtml(Middle) && h.sizeStyle == "font-size: 15rem;"
    {
      BackImageToHtml(Middle)
    }

    function DefaultFrontImageToHtml(): (h: Span)
      reads this
      requires Valid()
      ensures h == FrontImageToHtml(Middle) && h.sizeStyle == "font-size: 15rem;"
    {
      FrontImageToHtml(Middle)
    }
  }

  // ---------------------------------------------------------------------
  // Card
  // ---------------------------------------------------------------------

  class Card {
    var mark: Option<CardMark>
    var number: int32
    /** Made on first use by the CardImage getter. */
    var cardImage: CardImage?

    constructor (mark: CardMark, number: int32)
      ensures this.mark == Some(mark) && this.number == number && cardImage == null
    {
      this.mark := Some(mark);
      this.number := number;
      cardImage := null;
    }

    /** Card(): no mark and number 0, the state deserialisation starts from. */
    constructor Empty()
      ensures mark == None && number == 0 && cardImage == null
    {
      mark := None;
      number := 0;
      cardImage := null;
    }

    /** An image is made only for a card with a mark and a non-zero number. */
    method SetCardImage()
      modifies this
      ensures mark == old(mark) && number == old(number)
      ensures old(mark).Some? && old(number) != 0 ==>
        && cardImage != null && fresh(cardImage)
        && cardImage.frontCodePoint == FrontCodePoint(mark.value, number)
        && cardImage.color == MarkColor(mark.value)
        && cardImage.Valid()
      ensures old(mark).None? || old(number) == 0 ==> cardImage == old(cardImage)
    {
      if mark.Some? && number != 0 {
        cardImage := new CardImage(mark.value, number);
      }
    }

    /** The CardImage getter: the image already made, else a new one when SetCardImage can make it. */
    method GetCardImage() returns (image: CardImage?)
      modifies this
      ensures image == cardImage && mark == old(mark) && number == old(number)
      ensures old(cardImage) != null ==> image == old(cardImage)
      ensures old(cardImage) == null && (mark.None? || number == 0) ==> image == null
      ensures old(cardImage) == null && mark.Some? && number != 0 ==>
        image != null && fresh(image) && image.frontCodePoint == FrontCodePoint(mark.value, number) && image.Valid()
    {
      if cardImage == null {
        SetCardImage();
      }
      image := cardImage;
    }
  }

  // ---------------------------------------------------------------------
  // The static deck
  // ---------------------------------------------------------------------

  /** The mark and number of the card at position i of the static list. */
  function Face(i: nat): (CardMark, int)
    requires i < DeckSize
  {
    (Marks[i / NumbersPerMark], i % NumbersPerMark + 1)
  }

  /** Every mark and number 1..13 stands at exactly one position of the static list. */
  lemma FaceIndex(i: nat, mark: CardMark, number: int)
    requires i < DeckSize && 1 <= number <= 13
    ensures Face(i) == (mark, number) <==> i == MarkIndex(mark) * NumbersPerMark + number - 1
  {
    var j := MarkIndex(mark) * NumbersPerMark + number - 1;
    assert j / NumbersPerMark == MarkIndex(mark) && j % NumbersPerMark == number - 1;
    if Face(i) == (mark, number) {
      var q := i / NumbersPerMark;
      assert q == 0 || q == 1 || q == 2 || q == 3;
      assert q == MarkIndex(Marks[q]);
      assert i == (i / NumbersPerMark) * NumbersPerMark + i % NumbersPerMark;
    }
  }

  /** The static deck holds all 52 faces, each once. */
  lemma DeckHoldsEveryFaceOnce(mark: CardMark, number: int)
    requires 1 <= number <= 13
    ensures exists i :: 0 <= i < DeckSize && Face(i) == (mark, number)
    ensures forall i, j :: 0 <= i < DeckSize && 0 <= j < DeckSize && Face(i) == (mark, number) && Face(j) == (mark, number) ==> i == j
  {
    var k := MarkIndex(mark) * NumbersPerMark + number - 1;
    FaceIndex(k, mark, number);
    forall i | 0 <= i < DeckSize
      ensures Face(i) == (mark, number) <==> i == k
    {
      FaceIndex(i, mark, number);
    }
  }

  /** AddCardByMark: thirteen new cards of one mark, numbered 1 to 13, appended to the list. */
  method AddCardByMark(cardList: seq<Card>, mark: CardMark) returns (r: seq<Card>)
    ensures |r| == |cardList| + NumbersPerMark && r[..|cardList|] == cardList
    ensures forall i :: |cardList| <= i < |r| ==>
      fresh(r[i]) && r[i].mark == Some(mark) && r[i].number == i - |cardList| + 1 && r[i].cardImage == null
  {
    r := cardList;
    var i: int32 := 1;
    while i <= 13
      invariant 1 <= i <= 14 && |r| == |cardList| + i - 1 && r[..|cardList|] == cardList
      invariant forall k :: |cardList| <= k < |r| ==>
        fresh(r[k]) && r[k].mark == Some(mark) && r[k].number == k - |cardList| + 1 && r[k].cardImage == null
    {
      var card := new Card(mark, i);
      r := r + [card];
      i := i + 1;
    }
  }

  /** The static constructor of Cards: the four marks in order, each numbered 1 to 13. */
  method AddCardAllKind() returns (cardList: seq<Card>)
    ensures |cardList| == DeckSize
    ensures forall i :: 0 <= i < |cardList| ==>
      && fresh(cardList[i]) && cardList[i].mark.Some? && cardList[i].cardImage == null
      && (cardList[i].mark.value, cardList[i].number as int) == Face(i)
  {
    cardList := [];
    var m := 0;
    while m < |Marks|
      invariant 0 <= m <= |Marks| && |cardList| == m * NumbersPerMark
      invariant forall i :: 0 <= i < |cardList| ==>
        fresh(cardList[i]) && cardList[i].mark == Some(Marks[i / NumbersPerMark])
        && cardList[i].number == i % NumbersPerMark + 1 && cardList[i].cardImage == null
    {
      var before := cardList;
      cardList := AddCardByMark(cardList, Marks[m]);
      forall i | |before| <= i < |cardList|
        ensures i / NumbersPerMark == m && i % NumbersPerMark == i - |before|
      {
        assert i == m * NumbersPerMark + (i - |before|);
      }
      m := m + 1;
    }
  }

  // ---------------------------------------------------------------------
  // Cards
  // ---------------------------------------------------------------------

  /** `order` lists each position of a sequence of length n exactly once. */
  predicate IsPermutation(order: seq<nat>, n: nat) {
    && |order| == n
    && (forall i :: 0 <= i < n ==> order[i] < n)
    && (forall i, j :: 0 <= i < j < n ==> order[i] != order[j])
  }

  function Permuted<T>(s: seq<T>, order: seq<nat>): (r: seq<T>)
    requires IsPermutation(order, |s|)
    ensures |r| == |s| && forall i :: 0 <= i < |s| ==> r[i] == s[order[i]]
  {
    seq(|s|, i requires 0 <= i < |s| => s[order[i]])
  }

  /** Removing position k of a permutation of 0..n-1, and renumbering the positions, gives a permutation of 0..n-2. */
  function Without(order: seq<nat>, k: nat, n: nat): (r: seq<nat>)
    requires IsPermutation(order, n) && k < n && order[k] == n - 1
    ensures IsPermutation(r, n - 1)
  {
    var r := order[..k] + order[k + 1..];
    assert forall i :: 0 <= i < n - 1 ==> r[i] == (if i < k then order[i] else order[i + 1]);
    r
  }

  lemma IndexOfLast(order: seq<nat>, n: nat) returns (k: nat)
    requires IsPermutation(order, n) && n > 0
    ensures k < n && order[k] == n - 1
  {
    // the n positions take n distinct values below n, so one of them is n - 1
    var values := set i | 0 <= i < n :: order[i];
    if n - 1 !in values {
      assert values <= Range(n - 1);
      InjectiveImage(order, n);
      SubsetCardinality(values, Range(n - 1));
      assert false;
    }
    k :| 0 <= k < n && order[k] == n - 1;
  }

  function Range(n: nat): (r: set<nat>)
    ensures |r| == n && forall v: nat :: v in r <==> v < n
  {
    if n == 0 then {} else Range(n - 1) + {n - 1}
  }

  lemma {:induction false} InjectiveImage(order: seq<nat>, n: nat)
    requires |order| == n && forall i, j :: 0 <= i < j < n ==> order[i] != order[j]
    ensures |set i | 0 <= i < n :: order[i]| == n
  {
    if n > 0 {
      var prefix := order[..n - 1];
      InjectiveImage(prefix, n - 1);
      assert (set i | 0 <= i < n :: order[i]) == (set i | 0 <= i < n - 1 :: prefix[i]) + {order[n - 1]};
    }
  }

  lemma SubsetCardinality<T>(a: set<T>, b: set<T>)
    requires a <= b
    ensures |a| <= |b|
  {
    assert b == a + (b - a);
  }

  /** Where the last element of s lands in a permutation of s. */
  lemma PermutedSplit<T>(s: seq<T>, order: seq<nat>, k: nat)
    requires |s| > 0 && IsPermutation(order, |s|) && k < |s| && order[k] == |s| - 1
    ensures Permuted(s, order)
      == Permuted(s[..|s| - 1], Without(order, k, |s|))[..k] + [s[|s| - 1]] + Permuted(s[..|s| - 1], Without(order, k, |s|))[k..]
  {
    var n := |s|;
    var rest := Without(order, k, n);
    var q := Permuted(s[..n - 1], rest);
    var p := Permuted(s, order);
    var r := q[..k] + [s[n - 1]] + q[k..];
    assert |r| == n;
    forall i | 0 <= i < n
      ensures p[i] == r[i]
    {
      if i < k {
        assert rest[i] == order[i];
      } else if i > k {
        assert rest[i - 1] == order[i];
      }
    }
  }

  lemma MultisetInsert<T>(q: seq<T>, x: T, k: nat)
    requires k <= |q|
    ensures multiset(q[..k] + [x] + q[k..]) == multiset(q) + multiset{x}
  {
    assert q == q[..k] + q[k..];
  }

  /** A permuted sequence holds the same elements as often as the original. */
  lemma {:induction false} PermutedMultiset<T>(s: seq<T>, order: seq<nat>)
    requires IsPermutation(order, |s|)
    ensures multiset(Permuted(s, order)) == multiset(s)
    decreases |s|
  {
    var n := |s|;
    if n > 0 {
      var k := IndexOfLast(order, n);
      var rest := Without(order, k, n);
      var front := s[..n - 1];
      PermutedMultiset(front, rest);
      PermutedSplit(s, order, k);
      MultisetInsert(Permuted(front, rest), s[n - 1], k);
      assert s == front + [s[n - 1]];
    }
  }

  /**
    Cards: the stack of shuffled cards, its top first. A new Cards holds the
    static list in a random order; that order comes in as a parameter.
  */
  class Cards {
    var shuffledCards: seq<Card>

    constructor (cardList: seq<Card>, order: seq<nat>)
      requires IsPermutation(order, |cardList|)
      ensures shuffledCards == Permuted(cardList, order)
      ensures multiset(shuffledCards) == multiset(cardList)
    {
      shuffledCards := Permuted(cardList, order);
      PermutedMultiset(cardList, order);
    }

    /** Stack.Pop: the top card, removed; an empty stack throws (None). */
    method Pop() returns (card: Option<Card>)
      modifies this
      ensures old(shuffledCards) == [] ==> card == None && shuffledCards == []
      ensures old(shuffledCards) != [] ==> card == Some(old(shuffledCards)[0]) && shuffledCards == old(shuffledCards)[1..]
    {
      if shuffledCards == [] {
        card := None;
      } else {
        card := Some(shuffledCards[0]);
        shuffledCards := shuffledCards[1..];
      }
    }

    /** GetEnumerator run to the end: every remaining card in pop order, leaving the stack empty. */
    method Drain() returns (cards: seq<Card>)
      modifies this
      ensures cards == old(shuffledCards) && shuffledCards == []
    {
      cards := [];
      while |shuffledCards| > 0
        invariant cards + shuffledCards == old(shuffledCards)
        decreases |shuffledCards|
      {
        var top := Pop();
        cards := cards + [top.value];
      }
    }
  }
}
