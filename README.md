# Racoon Tycoon bot — game-state model

A Dafny model of the game-state logic of the Racoon Tycoon bot (`src/main.rs`),
with everything it prints or reads from the terminal removed. It covers:

- the commodity kinds with their discriminants, and the name table that
  `Comodity::from_name` scans (module `Comodities`, `comodity.dfy`);
- `ComodityPrice` with `new`, `inflate` and `deflate`, which clamp a price into
  its `[min, max]` band (module `Prices`, `price.dfy`);
- production cards, and the per-commodity meaning of their `produce` and
  `inflate` lists (module `Productions`, `production.dfy`);
- the `Name-Amount` lines typed at the production prompt: the accept, reject
  or stop decision for one line, and the card that a sequence of lines builds
  (module `Entries`, `entry.dfy`);
- the game itself as a class `GameState` (module `Game`, `game.dfy`). It holds:
  - the market, one price per discriminant, as an array;
  - the players in turn order;
  - the turn index.

  Its methods cover:
  - set-up (`init_market_place`, `init_players`);
  - reading a price and the current player;
  - the production action;
  - the turn hand-over of `exec_player_turn`.

`u32` is modelled as the subtype `U32` of `int`. Where the source adds or
subtracts `u32` values, the model requires that the result stays in range.
In the source, going out of range panics in a debug build and wraps in a
release build. The model does not describe either behaviour.

The source implements no sale at all: menu option `2` is an empty arm.
So the model has no sale and no saturating arithmetic. Every other menu
choice apart from `1` only passes the turn on.

Terminal input is replaced by parameters:
- the lines a prompt loop would read are passed in as a sequence, already
  trimmed;
- the menu choice and the production card are arguments of
  `ExecPlayerTurn`.

## Model

| member | source | states |
|---|---|---|
| Comodities.Index | src/main.rs:20-31 | every kind's discriminant is below `Count`, so it indexes every per-commodity array |
| Comodities.IndexInjective | src/main.rs:20-31 | distinct kinds have distinct discriminants |
| Comodities.NameMapIndexed | src/main.rs:44-52 | the table has one row per discriminant, and row `i` holds the kind whose discriminant is `i` |
| Comodities.Name | src/main.rs:44-52 | a kind's printed name is the name in the table row at its discriminant, and that row holds the kind |
| Comodities.NameMapDistinct | src/main.rs:44-52 | no two rows of the name table share a name |
| Comodities.Lookup | src/main.rs:34-41 | the `for` scan with early return; whatever it returns comes from a row carrying the name (the rows below characterise it fully) |
| Comodities.LookupFirst | src/main.rs:34-41 | the scan returns the kind of the first row carrying the name |
| Comodities.LookupMissing | src/main.rs:34-41 | the scan returns `None` exactly when no row carries the name |
| Comodities.FromName | src/main.rs:34-41 | `Comodity::from_name` is the scan over the name table; a kind it returns is named so in the table (FromNameRow, FromNameNone and FromNameSound below characterise it) |
| Comodities.FromNameRow | src/main.rs:34-52 | `from_name(ComodityNameMap[i].0) == Some(ComodityNameMap[i].1)`, and that kind has discriminant `i` |
| Comodities.FromNameOfName | src/main.rs:34-52 | looking up a kind's own name gives the kind back |
| Comodities.FromNameNone | src/main.rs:34-52 | `from_name` gives `None` exactly for names that are no kind's name |
| Comodities.FromNameSound | src/main.rs:34-52 | when `from_name` finds a kind, the name looked up is that kind's name |
| Prices.Clamp | src/main.rs:75 | `x.max(lo).min(hi)` never exceeds `hi`, lies in `[lo, hi]` when `lo <= hi`, and leaves a value already in the band alone |
| Prices.ComodityPrice.New | src/main.rs:66-72 | the band is as given and the price starts on its floor, inside the band when `min <= max` |
| Prices.ComodityPrice.Default | src/main.rs:58-63 | the derived default is all zero |
| Prices.ComodityPrice.Inflate | src/main.rs:74-77 | the band is unchanged; the price stays in a well-formed band; from at or above the floor the price becomes `min(current + amount, max)`; it never falls for an in-band price; it lands on `max` once the sum reaches the ceiling |
| Prices.ComodityPrice.Deflate | src/main.rs:79-82 | for `amount <= current`: the band is unchanged; the price stays in a well-formed band; from at or below the ceiling the price becomes `max(current - amount, min)`; it never rises for an in-band price; it lands on `min` once the difference reaches the floor |
| Productions.TotalFor | src/main.rs:133-137 | a commodity that no entry names gets nothing |
| Productions.TotalForAppend | src/main.rs:135-136 | totals add up over concatenated lists, so repeated entries accumulate |
| Productions.TotalForSingle | src/main.rs:136 | one entry adds its amount to its own commodity and nothing to the others |
| Productions.InflatedFor | src/main.rs:138-140 | inflating in list order never changes a price's band |
| Productions.InflatedForUnnamed | src/main.rs:138-140 | a commodity named by no `inflate` entry keeps its price |
| Productions.InflatedForInBand | src/main.rs:138-140 | inflating an in-band price by any list keeps it in band and never lowers it |
| Productions.InflatedForTotal | src/main.rs:138-140 | inflating an in-band price entry by entry equals adding the total for it once and cutting at the ceiling |
| Entries.Split | src/main.rs:230 | `split('-')` gives one more piece than there are separators, no piece holds a separator, and joining the pieces with `-` gives the input back |
| Entries.SplitAround | src/main.rs:230-231 | a line with exactly one `-` splits into the two sides |
| Entries.Decimal | src/main.rs:221 | the `{}` rendering of a number is a non-empty string of digits |
| Entries.ParseU32 | src/main.rs:235 | `amount.parse::<u32>()`: the empty string is refused, and an accepted text holds no `-`; ParseDecimal below gives its round trip |
| Entries.ParseDecimal | src/main.rs:221-235 | parsing the rendering of a `u32` gives the number back |
| Entries.ParseEntry | src/main.rs:226-248 | a line stops the prompt iff it is `done`. Otherwise it is rejected as badly formed iff it does not hold exactly one `-`. A line rejected as not a commodity reports its first piece, which is not in the table. A line rejected as not a number has exactly two pieces, a table name first, and reports its second piece, which is not a `u32`: the name is checked before the number |
| Entries.ParseEntryComplete | src/main.rs:230-236 | every line `<table name>-<u32 text>` is accepted as that kind and amount |
| Entries.ParseEntrySound | src/main.rs:230-236 | every accepted line is `<name of its kind>-<text that parses to its amount>` |
| Entries.ParseEntryRoundTrip | src/main.rs:221-236 | the `Name-Amount` echo of an entry parses back to the same entry |
| Entries.Collect | src/main.rs:216-250 | the prompt loop with its push, skip and stop handler: entries are only ever pushed onto `produce`, never removed, and at most one per line (CollectLine and CollectStopsAtDone below give its step and its stop) |
| Entries.PlayerProduceComodities | src/main.rs:208-253 | the prompt never fills `inflate` |
| Entries.CollectLine | src/main.rs:225-249 | before `done`, each further line appends its entry to `produce` when accepted, and otherwise leaves the card as it was |
| Entries.CollectStopsAtDone | src/main.rs:216-250 | nothing typed after `done` affects the card |
| Game.NewPlayer | src/main.rs:106-111 | the given name, no money, and a count of 0 for every kind |
| Game.BoardBounds | src/main.rs:143-152 | every band on the board is well formed |
| Game.DoneIndex | src/main.rs:163-171 | the lines before the first `done` (or all lines when there is none) are the ones the prompt consumes |
| Game.NextTurn | src/main.rs:205 | the turn index after a turn names an existing player |
| Game.NextTurnRotates | src/main.rs:205 | the turn index moves to the next player, and from the last player back to the first |
| Game.TurnAfterClosedForm | src/main.rs:205 | after `N` turns the turn index is `(t0 + N) mod len` |
| Game.SinglePlayerTurns | src/main.rs:175-205 | with only the bot, every turn is the bot's |
| Game.GameState.constructor | src/main.rs:255-260 | a new game has a valid in-band market equal to the board, the turn index on the first player, and one fresh player per line before `done` in the order typed, then the bot |
| Game.GameState.InitMarketPlace | src/main.rs:143-152 | every price sits on the floor of its board band: Wheat and Wood (1, 12), Iron and Coal (2, 13), Goods and Luxury (3, 14), Any (0, 0) |
| Game.GameState.InitPlayers | src/main.rs:154-176 | one new player is appended per line up to `done`, in order, and then the bot, so the list is never empty |
| Game.GameState.ComodityPriceOf | src/main.rs:124-127 | the price read lies in the commodity's band, and on a fresh board it is the band's floor |
| Game.GameState.CurrentPlayer | src/main.rs:129-131 | the current player exists and has one count per kind |
| Game.GameState.GameActionProduce | src/main.rs:133-141 | the current player's count of each kind grows by the card's total for that kind. Name, money and every other player are unchanged. Each price becomes the result of inflating it by the card's entries for it, in list order. The game stays valid, so every price stays in its band |
| Game.GameState.ExecPlayerTurn | src/main.rs:178-206 | choice `1` has the production effect for the player whose turn it was. Any other choice changes neither players nor market. In both cases the turn index becomes `(1 + t) % len` and the game stays valid |

## Left out

- Terminal I/O is not modelled. This covers `input_loop`, `main`, the loop of `new_game` (`show`, `end`, and a turn for any other line), `show_game`, every prompt and every `println!` error message. The lines a prompt would read are a parameter instead.
- The `trim` of each line read is not modelled: lines arrive already trimmed.
- Game.GameState.constructor: the end of the player-name lines acts as `done`. The source's `init_players` returns only after reading `done` (src/main.rs:165); with no `done` the model still appends the bot and returns a game.
- Game.GameState.InitPlayers: the end of the lines acts as `done`, as for the constructor; the source never reaches the bot's push (src/main.rs:175) without a `done`.
- Entries.PlayerProduceComodities: the end of the lines acts as `done`. The source returns the card only after reading `done` (src/main.rs:227); with no `done` the model returns the entries collected so far.
- Read errors are not modelled. In particular, at end of input `read_line` keeps returning empty lines, so the prompt loops never end.
- `Town`, `Railroad`, `Building`, the three decks and the players' `production`, `buildings`, `railroads` and `towns` vectors are not modelled. The source only declares them.
- Menu actions `2` to `5` are empty arms in the source and are modelled as doing nothing. There is no sale.
- Prices.ComodityPrice.Inflate: requires `current + amount` to fit in `u32`. This avoids claiming either the debug-build panic or the release-build wrap.
- Prices.ComodityPrice.Deflate: requires `amount <= current`. In a release build an underflow wraps to a huge value, which then clamps to `max`; the model does not describe this. The source never calls `deflate`.
- Game.GameState.GameActionProduce: requires every count plus the card's total, and every step of `inflate`, to fit in `u32` (`CanProduce`). What happens on overflow is not modelled.
- Game.GameState.ExecPlayerTurn: takes the menu choice and the card as arguments. This replaces reading them from the terminal.
- Entries.ParseU32: `str::parse::<u32>` is taken to mean one or more decimal digits whose value fits in `u32`. Its other lexical rules, such as accepting a leading `+`, are not modelled.
- `ComodityPrice` is a value in the market array, not an object. The source's struct is `Copy` and stored inline, so `inflate` on a slot replaces that slot's value; `GameActionProduce` writes it as `market[i] := market[i].Inflate(amount)`. Aliasing between prices cannot arise in the source either.
- The trailing `Count` variant of the enum is not modelled as a kind. It is the constant `Count` (7).
