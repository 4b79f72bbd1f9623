/** The game state: the market, the players in turn order and whose turn it is,
    with the production action and the turn hand-over. */
module Game {
  import opened Comodities
  import opened Prices
  import opened Productions

  /** `Player`, restricted to what the core reads and writes: `comodities`
      holds one count per discriminant. */
  datatype Player = Player(name: string, money: U32, comodities: seq<U32>)

  /** `Player::new`: a named player with no money and nothing in stock. */
  function NewPlayer(name: string): (p: Player)
    ensures p.name == name && p.money == 0
    ensures |p.comodities| == Count
    ensures forall c :: 0 <= c < Count ==> p.comodities[c] == 0
  {
    Player(name, 0, seq(Count, _ => 0))
  }

  /** The synthetic player appended after everyone who joined. */
  const BotName: string := "Racoon Bot"

  /** The fixed `(min, max)` band of each commodity on the board. */
  function BoardBounds(c: Comodity): (bounds: (U32, U32))
    ensures bounds.0 <= bounds.1
  {
    match c
    case Wheat => (1, 12)
    case Wood => (1, 12)
    case Iron => (2, 13)
    case Coal => (2, 13)
    case Goods => (3, 14)
    case Luxury => (3, 14)
    case Any => (0, 0)
  }

  /** The first position holding `done`, or the length when there is none:
      the lines before it are the ones a prompt loop consumes. */
  function DoneIndex(lines: seq<string>): (k: nat)
    ensures k <= |lines|
    ensures forall j :: 0 <= j < k ==> lines[j] != "done"
    ensures k < |lines| ==> lines[k] == "done"
    decreases |lines|
  {
    if lines == [] || lines[0] == "done" then 0 else 1 + DoneIndex(lines[1..])
  }

  /** The turn index after one turn with `n` players. */
  function NextTurn(t: nat, n: nat): (r: nat)
    requires n >= 1
    ensures r < n
  {
    (1 + t) % n
  }

  /** The turn index after `turns` turns. */
  function TurnAfter(t: nat, n: nat, turns: nat): (r: nat)
    requires n >= 1
    decreases turns
  {
    if turns == 0 then t else NextTurn(TurnAfter(t, n, turns - 1), n)
  }

  lemma MulAtLeast(k: int, n: int)
    requires k >= 1 && n >= 1
    ensures k * n >= n
  {
    assert k * n == (k - 1) * n + n;
  }

  /** Division with remainder has one answer. */
  lemma ModUnique(x: nat, n: nat, q: int, r: int)
    requires n >= 1 && 0 <= r < n && x == q * n + r
    ensures x % n == r
  {
    var q', r' := x / n, x % n;
    assert (q - q') * n == r' - r;
    if q > q' {
      MulAtLeast(q - q', n);
    } else if q < q' {
      MulAtLeast(q' - q, n);
    }
  }

  /** The turn index moves to the next player, and from the last one back to the
      first. */
  lemma NextTurnRotates(t: nat, n: nat)
    requires n >= 1 && t < n
    ensures t < n - 1 ==> NextTurn(t, n) == t + 1
    ensures t == n - 1 ==> NextTurn(t, n) == 0
  {
    if t < n - 1 {
      ModUnique(1 + t, n, 0, 1 + t);
    } else {
      ModUnique(1 + t, n, 1, 0);
    }
  }

  lemma ModSucc(x: nat, n: nat)
    requires n >= 1
    ensures NextTurn(x % n, n) == (x + 1) % n
  {
    var q, r := x / n, x % n;
    assert x == q * n + r;
    if r + 1 < n {
      ModUnique(1 + r, n, 0, 1 + r);
      ModUnique(x + 1, n, q, r + 1);
    } else {
      ModUnique(1 + r, n, 1, 0);
      ModUnique(x + 1, n, q + 1, 0);
    }
  }

  /** After `turns` turns the turn index has moved on by `turns`, modulo the
      number of players. */
  lemma {:induction false} TurnAfterClosedForm(t: nat, n: nat, turns: nat)
    requires n >= 1 && t < n
    ensures TurnAfter(t, n, turns) == (t + turns) % n
    decreases turns
  {
    if turns > 0 {
      TurnAfterClosedForm(t, n, turns - 1);
      ModSucc(t + turns - 1, n);
    }
  }

  /** With one player, every turn is that player's. */
  lemma SinglePlayerTurns(turns: nat)
    ensures TurnAfter(0, 1, turns) == 0
  {
    TurnAfterClosedForm(0, 1, turns);
  }

  /** `GameState`, without the decks, which hold no logic. */
  class GameState {
    /** `market_place`: one price per discriminant. */
    var market: array<ComodityPrice>
    var players: seq<Player>
    /** `current_player_tern`. */
    var turn: nat

    /** One price per discriminant, each inside its band. */
    ghost predicate MarketValid()
      reads this`market, market
    {
      market.Length == Count && forall i :: 0 <= i < Count ==> market[i].InBand()
    }

    ghost predicate HoldingsValid()
      reads this`players
    {
      forall j :: 0 <= j < |players| ==> |players[j].comodities| == Count
    }

    /** The invariant of a started game: the turn index names an existing player. */
    ghost predicate Valid()
      reads this, market
    {
      MarketValid() && HoldingsValid() && turn < |players|
    }

    /** The market `init_market_place` leaves: every price on the floor of its
        board band. */
    ghost predicate OnBoard()
      reads this`market, market
    {
      market.Length == Count &&
      forall c: Comodity :: market[Index(c)] == ComodityPrice.New(BoardBounds(c).0, BoardBounds(c).1)
    }

    /** `new_game`'s set-up: `GameState::default()`, then `init_market_place`,
        then `init_players` with the lines typed at its prompt. */
    constructor (lines: seq<string>)
      ensures Valid() && OnBoard() && fresh(market)
      ensures turn == 0
      ensures players == seq(DoneIndex(lines), j requires 0 <= j < DoneIndex(lines) => NewPlayer(lines[j]))
                         + [NewPlayer(BotName)]
    {
      market := new ComodityPrice[Count](_ => ComodityPrice.Default());
      players := [];
      turn := 0;
      new;
      InitMarketPlace();
      InitPlayers(lines);
    }

    /** `init_market_place`: every price on the floor of the board's band for
        it; `Any` gets the all-zero default. */
    method InitMarketPlace()
      requires market.Length == Count
      modifies market
      ensures MarketValid() && OnBoard()
    {
      // The board shows the commodities in this order, left to right.
      market[Index(Wheat)] := ComodityPrice.New(1, 12);
      market[Index(Wood)] := ComodityPrice.New(1, 12);
      market[Index(Iron)] := ComodityPrice.New(2, 13);
      market[Index(Coal)] := ComodityPrice.New(2, 13);
      market[Index(Goods)] := ComodityPrice.New(3, 14);
      market[Index(Luxury)] := ComodityPrice.New(3, 14);
      market[Index(Any)] := ComodityPrice.Default();
    }

    /** `init_players`: one new player per line up to `done`, in the order
        typed, then the bot. */
    method InitPlayers(lines: seq<string>)
      requires HoldingsValid()
      modifies this`players
      ensures HoldingsValid() && |players| >= 1
      ensures players == old(players)
                         + seq(DoneIndex(lines), j requires 0 <= j < DoneIndex(lines) => NewPlayer(lines[j]))
                         + [NewPlayer(BotName)]
    {
      var i := 0;
      while i < |lines| && lines[i] != "done"
        invariant i <= DoneIndex(lines)
        invariant HoldingsValid()
        invariant players == old(players) + seq(i, j requires 0 <= j < i => NewPlayer(lines[j]))
      {
        players := players + [NewPlayer(lines[i])];
        i := i + 1;
      }
      players := players + [NewPlayer(BotName)];
    }

    /** `game_comodity_price`: the current price, always inside its band. */
    function ComodityPriceOf(c: Comodity): (price: U32)
      reads this, market
      requires Valid()
      ensures market[Index(c)].min <= price <= market[Index(c)].max
      ensures OnBoard() ==> price == BoardBounds(c).0
    {
      market[Index(c)].current
    }

    /** `game_current_player`: the player whose turn it is, who always exists. */
    function CurrentPlayer(): (p: Player)
      reads this, market
      requires Valid()
      ensures p in players && |p.comodities| == Count
    {
      players[turn]
    }

    /** The additions `game_action_produce` makes all fit in `u32`. */
    ghost predicate CanProduce(card: ProductionCard)
      reads this, market
      requires Valid()
    {
      && (forall c :: 0 <= c < Count ==> players[turn].comodities[c] + TotalFor(card.produce, c) < U32_BOUND)
      && (forall c :: 0 <= c < Count ==> InflateFits(market[c], c, card.inflate))
    }

    /** The effect of `game_action_produce` by player `t`: that player's count of
        each commodity grows by the card's total for it, the prices named in
        `inflate` are inflated in list order, and nothing else changes. */
    twostate predicate Produced(card: ProductionCard, t: nat)
      reads this, market
    {
      && market == old(market) && market.Length == Count
      && t < |players| == |old(players)|
      && (forall j :: 0 <= j < |players| && j != t ==> players[j] == old(players[j]))
      && players[t].name == old(players[t].name)
      && players[t].money == old(players[t].money)
      && |players[t].comodities| == Count == |old(players[t].comodities)|
      && (forall c :: 0 <= c < Count ==>
            players[t].comodities[c] == old(players[t].comodities[c]) + TotalFor(card.produce, c))
      && (forall c :: 0 <= c < Count ==>
            InflateFits(old(market[c]), c, card.inflate) && market[c] == InflatedFor(old(market[c]), c, card.inflate))
    }

    /** `game_action_produce`. */
    method GameActionProduce(card: ProductionCard)
      requires Valid() && CanProduce(card)
      modifies this`players, market
      ensures Valid() && turn == old(turn) && Produced(card, turn)
    {
      ghost var before := players[turn].comodities;
      for k := 0 to |card.produce|
        modifies this`players
        invariant |players| == |old(players)| && HoldingsValid()
        invariant forall j :: 0 <= j < |players| && j != turn ==> players[j] == old(players[j])
        invariant players[turn].name == old(players[turn].name)
        invariant players[turn].money == old(players[turn].money)
        invariant forall c :: 0 <= c < Count ==>
                    players[turn].comodities[c] + TotalFor(card.produce[k..], c) == before[c] + TotalFor(card.produce, c)
      {
        var p := card.produce[k];
        assert card.produce[k..][0] == p && card.produce[k..][1..] == card.produce[k + 1..];
        var player := players[turn];
        var i := Index(p.kind);
        player := player.(comodities := player.comodities[i := player.comodities[i] + p.amount]);
        players := players[turn := player];
      }
      assert card.produce[|card.produce|..] == [];
      for k := 0 to |card.inflate|
        modifies market
        invariant MarketValid()
        invariant forall c :: 0 <= c < Count ==>
                    InflateFits(market[c], c, card.inflate[k..]) &&
                    InflatedFor(market[c], c, card.inflate[k..]) == InflatedFor(old(market[c]), c, card.inflate)
      {
        var p := card.inflate[k];
        assert card.inflate[k..][0] == p && card.inflate[k..][1..] == card.inflate[k + 1..];
        var i := Index(p.kind);
        market[i] := market[i].Inflate(p.amount);
      }
      assert card.inflate[|card.inflate|..] == [];
    }

    /** `exec_player_turn` once the action has been read: menu choice `1`
        produces with the card entered at the production prompt, every other
        choice does nothing, and then the turn passes on. */
    method ExecPlayerTurn(choice: string, card: ProductionCard)
      requires Valid()
      requires choice == "1" ==> CanProduce(card)
      modifies this`players, this`turn, market
      ensures Valid() && |players| == |old(players)|
      ensures turn == NextTurn(old(turn), |players|)
      ensures choice == "1" ==> Produced(card, old(turn))
      ensures choice != "1" ==> players == old(players) && market[..] == old(market[..])
    {
      if choice == "1" {
        GameActionProduce(card);
      }
      turn := (1 + turn) % |players|;
    }
  }
}
