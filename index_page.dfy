/**
  The High-and-Low page: two players each take 26 cards of a shuffled deck,
  show one card each per turn, and the turn's parent's opponent calls whether
  its own card is higher or lower than the other's.
*/
module IndexPage {
  import opened Wrappers
  import opened ClrTypes
  import opened PlayingCards

  datatype HighLow = High | Low

  /** The three judgements: 当たり (the call was right), はずれ (wrong), 引き分け (equal numbers). */
  datatype Outcome = Hit | Miss | Draw

  /**
    The outcome of calling `call` with a card numbered `mine` against one
    numbered `theirs`.
  */
  function Judge(call: HighLow, mine: int, theirs: int): (o: Outcome)
    ensures o == Draw <==> mine == theirs
    ensures o == Hit <==> (call == High && mine > theirs) || (call == Low && mine < theirs)
  {
    if mine == theirs then Draw
    else
      match call
      case High => if mine > theirs then Hit else Miss
      case Low => if mine < theirs then Hit else Miss
  }

  function JudgedText(o: Outcome): string {
    match o
    case Hit => "当たり"
    case Miss => "はずれ"
    case Draw => "引き分け"
  }

  /** Points for the side that made the call, and for the other side. */
  function CallerGain(o: Outcome): (g: nat)
    ensures g <= 2
  {
    match o
    case Hit => 2
    case Miss => 0
    case Draw => 1
  }

  function OtherGain(o: Outcome): (g: nat)
    ensures g + CallerGain(o) == 2
  {
    match o
    case Hit => 0
    case Miss => 2
    case Draw => 1
  }

  /** The end-of-game message from the player's point of view: 勝利, 敗北 or 引き分け. */
  function ResultText(playerVictry: int, enemyVictry: int): string {
    if playerVictry > enemyVictry then "勝利"
    else if playerVictry < enemyVictry then "敗北"
    else "引き分け"
  }

  function EnemyDeclarationText(call: HighLow): string {
    if call == High then "ハイ" else "ロー"
  }

  /**
    The cards at every other position of s, starting at position `first`:
    what one side receives when a deck is dealt alternately.
  */
  function Alternate<T>(s: seq<T>, first: nat): (r: seq<T>)
    requires first < 2
    ensures |r| == (|s| + 1 - first) / 2
  {
    if s == [] then []
    else if first == 0 then [s[0]] + Alternate(s[1..], 1)
    else Alternate(s[1..], 0)
  }

  /** The position of the player's first card: 0 when the player is parent and so dealt first. */
  function PlayerFirst(parrentPlayer: bool): (f: nat)
    ensures f < 2
  {
    if parrentPlayer then 0 else 1
  }

  /** Dealing from position i on: the card at i goes to whoever is first, the rest alternate from the other. */
  lemma AlternateAt<T>(s: seq<T>, i: nat, first: nat)
    requires i < |s| && first < 2
    ensures Alternate(s[i..], first) == (if first == 0 then [s[i]] else []) + Alternate(s[i + 1..], 1 - first)
  {
    assert s[i..][0] == s[i] && s[i..][1..] == s[i + 1..];
  }

  /** The two hands of an alternate deal hold the whole deck between them. */
  lemma {:induction false} AlternateCovers<T>(s: seq<T>, first: nat)
    requires first < 2
    ensures multiset(Alternate(s, first)) + multiset(Alternate(s, 1 - first)) == multiset(s)
    decreases s
  {
    if s != [] {
      AlternateCovers(s[1..], 1 - first);
      assert s == [s[0]] + s[1..];
    }
  }

  /** The whole of the page's state, so a handler can say what it changes and that nothing else does. */
  datatype PageState = PageState(
    hasNotStarted: bool, hasEnded: bool, showResult: bool, parrentPlayer: bool,
    playerNowCard: Card?, enemyNowCard: Card?, playerDeck: seq<Card>, enemyDeck: seq<Card>,
    playerVictry: int, enemyVictry: int, judgedResult: Option<string>, highOrLow: HighLow,
    enemyDeclaration: Option<string>, resultMessage: Option<string>)

  /** PlayerJudgment's effect: the player's call on the cards shown is judged and scored. */
  ghost function PlayerJudged(s: PageState): (t: PageState)
    reads s.playerNowCard, s.enemyNowCard
    requires s.playerNowCard != null && s.enemyNowCard != null
    // the two scores together rise by exactly 2
    ensures t.playerVictry + t.enemyVictry == s.playerVictry + s.enemyVictry + 2
  {
    var o := Judge(s.highOrLow, s.playerNowCard.number, s.enemyNowCard.number);
    s.(judgedResult := Some(JudgedText(o)),
       playerVictry := s.playerVictry + CallerGain(o), enemyVictry := s.enemyVictry + OtherGain(o))
  }

  /** The enemy's call: High exactly when the player's card is below 7. */
  function EnemyCall(playerNumber: int): HighLow {
    if playerNumber < 7 then High else Low
  }

  /** EnemyJudgment's effect: the enemy's call is declared, judged and scored, the roles of PlayerJudged swapped. */
  ghost function EnemyJudged(s: PageState): (t: PageState)
    reads s.playerNowCard, s.enemyNowCard
    requires s.playerNowCard != null && s.enemyNowCard != null
    ensures t.playerVictry + t.enemyVictry == s.playerVictry + s.enemyVictry + 2
  {
    var call := EnemyCall(s.playerNowCard.number);
    var o := Judge(call, s.enemyNowCard.number, s.playerNowCard.number);
    s.(enemyDeclaration := Some(EnemyDeclarationText(call)), judgedResult := Some(JudgedText(o)),
       enemyVictry := s.enemyVictry + CallerGain(o), playerVictry := s.playerVictry + OtherGain(o))
  }

  /** NextCardShow's effect: the heads of the decks are shown, or with no cards left the game ends with its message. */
  ghost function CardsNext(s: PageState): (t: PageState)
    requires |s.playerDeck| == |s.enemyDeck|
    ensures |t.playerDeck| == |t.enemyDeck|
    ensures s.playerDeck != [] ==> t.playerNowCard != null && t.enemyNowCard != null && |t.playerDeck| == |s.playerDeck| - 1
  {
    if s.playerDeck == [] then s.(hasEnded := true, resultMessage := Some(ResultText(s.playerVictry, s.enemyVictry)))
    else s.(playerNowCard := s.playerDeck[0], playerDeck := s.playerDeck[1..],
            enemyNowCard := s.enemyDeck[0], enemyDeck := s.enemyDeck[1..])
  }

  /**
    IndexModel. The fields keep the page's names (ParrentPlayer: the player
    is the parent of the turn, and the enemy makes the call); a string that
    is null is None.
  */
  class IndexModel {
    var hasNotStarted: bool
    var hasEnded: bool
    var showResult: bool
    var parrentPlayer: bool
    var playerNowCard: Card?
    var enemyNowCard: Card?
    var playerDeck: seq<Card>
    var enemyDeck: seq<Card>
    var playerVictry: int
    var enemyVictry: int
    var judgedResult: Option<string>
    /** The player's call, bound from the posted form. */
    var highOrLow: HighLow
    var enemyDeclaration: Option<string>
    var resultMessage: Option<string>

    ghost function State(): PageState
      reads this
    {
      PageState(hasNotStarted, hasEnded, showResult, parrentPlayer, playerNowCard, enemyNowCard,
        playerDeck, enemyDeck, playerVictry, enemyVictry, judgedResult, highOrLow, enemyDeclaration, resultMessage)
    }

    /** The two decks are always the same length, so one is empty exactly when the other is. */
    ghost predicate Valid()
      reads this
    {
      |playerDeck| == |enemyDeck|
    }

    /** A game is under way: both current cards are on the table. */
    ghost predicate CardsShown()
      reads this
    {
      playerNowCard != null && enemyNowCard != null
    }

    constructor ()
      ensures !hasEnded && !showResult && !parrentPlayer && hasNotStarted
      ensures playerVictry == 0 && enemyVictry == 0
      ensures playerDeck == [] && enemyDeck == [] && playerNowCard == null && enemyNowCard == null
      ensures Valid()
    {
      hasNotStarted := true;
      hasEnded := false;
      showResult := false;
      parrentPlayer := false;
      playerNowCard := null;
      enemyNowCard := null;
      playerDeck := [];
      enemyDeck := [];
      playerVictry := 0;
      enemyVictry := 0;
      judgedResult := None;
      highOrLow := High;
      enemyDeclaration := None;
      resultMessage := None;
    }

    method OnGet()
      modifies this
      ensures State() == old(State()).(hasNotStarted := true)
    {
      hasNotStarted := true;
    }

    /** The enemy calls High exactly when the player's card is below 7. */
    function EnemyAI(): (high: bool)
      reads this, playerNowCard
      requires playerNowCard != null
      ensures high <==> playerNowCard.number < 7
      ensures high <==> EnemyCall(playerNowCard.number) == High
    {
      if playerNowCard.number >= 7 then false else true
    }

    /** StartPlayer: `coin` is RandomNumberGenerator.GetInt32(0, 2); a 1 makes the player parent, a 0 changes nothing. */
    method StartPlayer(coin: int)
      requires 0 <= coin < 2
      modifies this
      ensures State() == old(State()).(parrentPlayer := old(parrentPlayer) || coin == 1)
    {
      if coin == 1 {
        parrentPlayer := true;
      }
    }

    /** DealCards' loop: each card to the side whose turn it is, the player's first when the player is parent. */
    static method DealAlternately(cards: seq<Card>, parrentPlayer: bool) returns (mine: seq<Card>, theirs: seq<Card>)
      ensures mine == Alternate(cards, PlayerFirst(parrentPlayer)) && theirs == Alternate(cards, 1 - PlayerFirst(parrentPlayer))
    {
      var pop := parrentPlayer;
      mine := [];
      theirs := [];
      var i := 0;
      assert cards[0..] == cards;
      while i < |cards|
        invariant 0 <= i <= |cards|
        // what is dealt so far, then the rest dealt alternately from whoever `pop` names
        invariant Alternate(cards, PlayerFirst(parrentPlayer)) == mine + Alternate(cards[i..], PlayerFirst(pop))
        invariant Alternate(cards, 1 - PlayerFirst(parrentPlayer)) == theirs + Alternate(cards[i..], 1 - PlayerFirst(pop))
      {
        AlternateAt(cards, i, 0);
        AlternateAt(cards, i, 1);
        if pop {
          mine := mine + [cards[i]];
          pop := false;
        } else {
          theirs := theirs + [cards[i]];
          pop := true;
        }
        i := i + 1;
      }
    }

    /**
      DealCards: a new shuffled deck (`order` is the shuffle) dealt one card
      at a time, alternately, the parent's side first.
    */
    method DealCards(cardList: seq<Card>, order: seq<nat>)
      requires IsPermutation(order, |cardList|)
      modifies this
      ensures var shuffled := Permuted(cardList, order);
        State() == old(State()).(
          playerDeck := Alternate(shuffled, PlayerFirst(parrentPlayer)),
          enemyDeck := Alternate(shuffled, 1 - PlayerFirst(parrentPlayer)))
      // every card of the deck is dealt, to one side or the other
      ensures multiset(playerDeck) + multiset(enemyDeck) == multiset(cardList)
      ensures |cardList| == DeckSize ==> |playerDeck| == 26 && |enemyDeck| == 26
    {
      var deck := new Cards(cardList, order);
      var cards := deck.Drain();
      var first := PlayerFirst(parrentPlayer);
      var mine, theirs := DealAlternately(cards, parrentPlayer);
      AlternateCovers(cards, first);
      playerDeck := mine;
      enemyDeck := theirs;
      PermutedMultiset(cardList, order);
    }

    /**
      NextCardShow: with cards left, the head of each deck becomes the card
      on the table; with none left, the game ends with its result message.
    */
    method NextCardShow()
      requires Valid()
      modifies this
      ensures Valid()
      ensures State() == CardsNext(old(State()))
    {
      if |playerDeck| <= 0 {
        hasEnded := true;
        if playerVictry > enemyVictry {
          resultMessage := Some("勝利");
        } else if playerVictry < enemyVictry {
          resultMessage := Some("敗北");
        } else {
          resultMessage := Some("引き分け");
        }
      } else {
        playerNowCard := playerDeck[0];
        playerDeck := playerDeck[1..];
        enemyNowCard := enemyDeck[0];
        enemyDeck := enemyDeck[1..];
      }
    }

    /** PlayerJudgment: the player's call scored; the two scores together rise by exactly 2. */
    method PlayerJudgment()
      requires CardsShown()
      modifies this
      ensures State() == PlayerJudged(old(State()))
    {
      if highOrLow == High {
        if playerNowCard.number > enemyNowCard.number {
          judgedResult := Some("当たり");
          playerVictry := playerVictry + 2;
        } else if playerNowCard.number < enemyNowCard.number {
          judgedResult := Some("はずれ");
          enemyVictry := enemyVictry + 2;
        } else {
          judgedResult := Some("引き分け");
          playerVictry := playerVictry + 1;
          enemyVictry := enemyVictry + 1;
        }
      } else {
        if playerNowCard.number < enemyNowCard.number {
          judgedResult := Some("当たり");
          playerVictry := playerVictry + 2;
        } else if playerNowCard.number > enemyNowCard.number {
          judgedResult := Some("はずれ");
          enemyVictry := enemyVictry + 2;
        } else {
          judgedResult := Some("引き分け");
          playerVictry := playerVictry + 1;
          enemyVictry := enemyVictry + 1;
        }
      }
    }

    /**
      EnemyJudgment: the enemy calls as EnemyAI says and is scored as the
      player would be, the two roles swapped.
    */
    method EnemyJudgment()
      requires CardsShown()
      modifies this
      ensures State() == EnemyJudged(old(State()))
    {
      if EnemyAI() {
        enemyDeclaration := Some("ハイ");
        if playerNowCard.number < enemyNowCard.number {
          judgedResult := Some("当たり");
          enemyVictry := enemyVictry + 2;
        } else if playerNowCard.number > enemyNowCard.number {
          judgedResult := Some("はずれ");
          playerVictry := playerVictry + 2;
        } else {
          judgedResult := Some("引き分け");
          playerVictry := playerVictry + 1;
          enemyVictry := enemyVictry + 1;
        }
      } else {
        enemyDeclaration := Some("ロー");
        if playerNowCard.number > enemyNowCard.number {
          judgedResult := Some("当たり");
          enemyVictry := enemyVictry + 2;
        } else if playerNowCard.number < enemyNowCard.number {
          judgedResult := Some("はずれ");
          playerVictry := playerVictry + 2;
        } else {
          judgedResult := Some("引き分け");
          playerVictry := playerVictry + 1;
          enemyVictry := enemyVictry + 1;
        }
      }
    }

    /**
      OnPostGameStart: choose the parent, deal, show the first cards, and let
      the enemy call at once when the player is parent.
    */
    method OnPostGameStart(coin: int, cardList: seq<Card>, order: seq<nat>)
      requires 0 <= coin < 2 && |cardList| == DeckSize && IsPermutation(order, |cardList|)
      modifies this
      ensures Valid() && CardsShown() && !hasNotStarted
      ensures parrentPlayer == (old(parrentPlayer) || coin == 1)
      // dealt alternately from the shuffled deck, parent first, and the first cards shown
      ensures var shuffled := Permuted(cardList, order);
        var dealt := old(State()).(hasNotStarted := false, parrentPlayer := parrentPlayer,
          playerDeck := Alternate(shuffled, PlayerFirst(parrentPlayer)),
          enemyDeck := Alternate(shuffled, 1 - PlayerFirst(parrentPlayer)));
        State() == if parrentPlayer then EnemyJudged(CardsNext(dealt)) else CardsNext(dealt)
      ensures |playerDeck| == 25 && |enemyDeck| == 25
      ensures playerVictry + enemyVictry == old(playerVictry + enemyVictry) + (if parrentPlayer then 2 else 0)
    {
      hasNotStarted := false;
      StartPlayer(coin);
      DealCards(cardList, order);
      NextCardShow();
      if parrentPlayer {
        EnemyJudgment();
      }
    }

    /**
      OnPostNextTurn: always flips ShowResult. Showing the result judges the
      player's call when the enemy is parent; hiding it passes the parent
      role over, shows the next cards, and lets the enemy call when the
      player is now parent.
    */
    method OnPostNextTurn()
      requires Valid() && CardsShown()
      modifies this
      ensures Valid() && CardsShown()
      ensures showResult == !old(showResult)
      // showing the result: the player's call is judged when the enemy is parent
      ensures !old(showResult) ==>
        var shown := old(State()).(showResult := true);
        State() == if old(parrentPlayer) then shown else PlayerJudged(shown)
      // hiding it: the parent role passes, the next cards are shown (or the game ends),
      // and the enemy calls when the player is now parent
      ensures old(showResult) ==>
        var next := CardsNext(old(State()).(showResult := false, parrentPlayer := !old(parrentPlayer)));
        State() == if parrentPlayer then EnemyJudged(next) else next
      // a turn that judges raises the two scores together by exactly 2
      ensures playerVictry + enemyVictry == old(playerVictry + enemyVictry)
        + (if (!old(showResult) && !old(parrentPlayer)) || (old(showResult) && parrentPlayer) then 2 else 0)
    {
      if !showResult {
        showResult := !showResult;
        if !parrentPlayer {
          PlayerJudgment();
        }
      } else {
        showResult := !showResult;
        parrentPlayer := !parrentPlayer;
        NextCardShow();
        if parrentPlayer {
          EnemyJudgment();
        }
      }
    }
  }
}
