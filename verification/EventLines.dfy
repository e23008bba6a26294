/** The event lines the program prints: all are parsed back, and all fit the log buffer. */
module EventLines {
  import opened Options
  import opened Numbers
  import opened Digits
  import opened Hex
  import opened Events

  const LOG_BUFFER_SIZE := 200

  type Pubkey = key: seq<Byte> | |key| == 32 witness seq(32, _ => 0)

  type U64 = n: nat | n <= U64_MAX

  type U16 = n: nat | n < 0x1_0000

  datatype Printed =
    | Initialize(authority: Pubkey, gameId: U64, feeBps: U16)
    | InitVault(gameId: U64, vault: Pubkey)
    | JoinRound(player: Pubkey, gameId: U64, stake: U64, playerCount: Byte)
    | CommitDeck(gameId: U64, round: U64, merkleRoot: Pubkey)
    | StartRound(gameId: U64, round: U64, playerCount: Byte)
    | Hit(player: Pubkey, gameId: U64, round: U64, cardType: Byte, value: Byte, suit: Byte, bust: bool)
    | Stay(player: Pubkey, gameId: U64, round: U64, score: U64)
    | EndRound(gameId: U64, round: U64, winner: Pubkey, pot: U64, allBusted: bool)
    | BurnSecondChance(player: Pubkey, gameId: U64)
    | BurnScry(player: Pubkey, gameId: U64, round: U64)
    | LeaveGame(player: Pubkey, gameId: U64, midRound: bool)
    | CloseGame(gameId: U64)
    | InitBountyBoard(gameId: U64, board: Pubkey)
    | AddBounty(gameId: U64, index: Byte, bountyType: Byte, amount: U64)
    | ClaimBounty(claimer: Pubkey, gameId: U64, index: Byte, bountyType: Byte, amount: U64)
    | CloseBountyBoard(gameId: U64)

  function Kind(p: Printed): string {
    match p
    case Initialize(_, _, _) => "initialize"
    case InitVault(_, _) => "init_vault"
    case JoinRound(_, _, _, _) => "join_round"
    case CommitDeck(_, _, _) => "commit_deck"
    case StartRound(_, _, _) => "start_round"
    case Hit(_, _, _, _, _, _, _) => "hit"
    case Stay(_, _, _, _) => "stay"
    case EndRound(_, _, _, _, _) => "end_round"
    case BurnSecondChance(_, _) => "burn_second_chance"
    case BurnScry(_, _, _) => "burn_scry"
    case LeaveGame(_, _, _) => "leave_game"
    case CloseGame(_) => "close_game"
    case InitBountyBoard(_, _) => "init_bounty_board"
    case AddBounty(_, _, _, _) => "add_bounty"
    case ClaimBounty(_, _, _, _, _) => "claim_bounty"
    case CloseBountyBoard(_) => "close_bounty_board"
  }

  function Key(name: string, key: Pubkey): Field {
    Field(name, HexText(key))
  }

  function Number(name: string, n: nat): Field {
    Field(name, Decimal(n))
  }

  function Flag(name: string, b: bool): Field {
    Field(name, if b then "true" else "false")
  }

  function Fields(p: Printed): seq<Field> {
    match p
    case Initialize(authority, gameId, feeBps) =>
      [Key("authority", authority), Number("game_id", gameId), Number("fee_bps", feeBps)]
    case InitVault(gameId, vault) => [Number("game_id", gameId), Key("vault", vault)]
    case JoinRound(player, gameId, stake, playerCount) =>
      [Key("player", player), Number("game_id", gameId), Number("stake", stake), Number("player_count", playerCount)]
    case CommitDeck(gameId, round, merkleRoot) =>
      [Number("game_id", gameId), Number("round", round), Key("merkle_root", merkleRoot)]
    case StartRound(gameId, round, playerCount) =>
      [Number("game_id", gameId), Number("round", round), Number("player_count", playerCount)]
    case Hit(player, gameId, round, cardType, value, suit, bust) =>
      [Key("player", player), Number("game_id", gameId), Number("round", round), Number("card_type", cardType),
       Number("value", value), Number("suit", suit), Flag("bust", bust)]
    case Stay(player, gameId, round, score) =>
      [Key("player", player), Number("game_id", gameId), Number("round", round), Number("score", score)]
    case EndRound(gameId, round, winner, pot, allBusted) =>
      [Number("game_id", gameId), Number("round", round), Key("winner", winner), Number("pot", pot),
       Flag("all_busted", allBusted)]
    case BurnSecondChance(player, gameId) => [Key("player", player), Number("game_id", gameId)]
    case BurnScry(player, gameId, round) => [Key("player", player), Number("game_id", gameId), Number("round", round)]
    case LeaveGame(player, gameId, midRound) =>
      [Key("player", player), Number("game_id", gameId), Flag("mid_round", midRound)]
    case CloseGame(gameId) => [Number("game_id", gameId)]
    case InitBountyBoard(gameId, board) => [Number("game_id", gameId), Key("board", board)]
    case AddBounty(gameId, index, bountyType, amount) =>
      [Number("game_id", gameId), Number("index", index), Number("bounty_type", bountyType), Number("amount", amount)]
    case ClaimBounty(claimer, gameId, index, bountyType, amount) =>
      [Key("claimer", claimer), Number("game_id", gameId), Number("index", index), Number("bounty_type", bountyType),
       Number("amount", amount)]
    case CloseBountyBoard(gameId) => [Number("game_id", gameId)]
  }

  function Line(p: Printed): string {
    EventLine(Kind(p), Fields(p))
  }

  // ---------------------------------------------------------------------
  // Length
  // ---------------------------------------------------------------------

  /** A field with its separator. */
  function FieldLength(f: Field): nat {
    |f.key| + |f.value| + 2
  }

  function LengthOfFirst(fields: seq<Field>, n: nat): nat
    requires n <= |fields|
  {
    if n == 0 then 0 else LengthOfFirst(fields, n - 1) + FieldLength(fields[n - 1])
  }

  lemma {:induction false} LengthFromFront(fields: seq<Field>, n: nat)
    requires 1 <= n <= |fields|
    ensures LengthOfFirst(fields, n) == FieldLength(fields[0]) + LengthOfFirst(fields[1..], n - 1)
  {
    if n > 1 { LengthFromFront(fields, n - 1); }
  }

  lemma {:induction false} FieldsTextLength(fields: seq<Field>)
    requires fields != []
    ensures |FieldsText(fields)| + 1 == LengthOfFirst(fields, |fields|)
  {
    LengthFromFront(fields, |fields|);
    assert FieldTexts(fields)[0] == FieldText(fields[0]);
    if |fields| > 1 {
      FieldsTextLength(fields[1..]);
      assert FieldTexts(fields)[1..] == FieldTexts(fields[1..]);
    }
  }

  lemma TenPowers()
    ensures Pow(10, 3) == 1000 && Pow(10, 5) == 100_000 && Pow(10, 20) == 100_000_000_000_000_000_000
  {
    assert Pow(10, 10) == 10_000_000_000;
    assert Pow(10, 15) == 1_000_000_000_000_000;
  }

  lemma NumberLength(n: nat)
    ensures n < 256 ==> |Decimal(n)| <= 3
    ensures n < 0x1_0000 ==> |Decimal(n)| <= 5
    ensures n <= U64_MAX ==> |Decimal(n)| <= 20
  {
    TenPowers();
    DecimalLength(n, 3);
    DecimalLength(n, 5);
    DecimalLength(n, 20);
  }

  lemma LineLength(p: Printed)
    ensures |Line(p)| == 9 + |Kind(p)| + LengthOfFirst(Fields(p), |Fields(p)|)
  {
    FieldsTextLength(Fields(p));
  }

  function UpTo(fields: seq<Field>, n: nat, i: nat): nat
    requires n <= |fields|
  {
    if i < n then FieldLength(fields[i]) else 0
  }

  /** No line has more than seven fields. */
  lemma {:induction false} SumOfSeven(fields: seq<Field>, n: nat)
    requires n <= |fields| && n <= 7
    ensures LengthOfFirst(fields, n)
         == UpTo(fields, n, 0) + UpTo(fields, n, 1) + UpTo(fields, n, 2) + UpTo(fields, n, 3)
          + UpTo(fields, n, 4) + UpTo(fields, n, 5) + UpTo(fields, n, 6)
  {
    if n > 0 { SumOfSeven(fields, n - 1); }
    hide FieldLength;
  }

  lemma KeyLength(name: string, key: Pubkey)
    ensures FieldLength(Key(name, key)) == |name| + 66
  {
  }

  lemma NumberFieldLength(name: string, n: nat)
    ensures n < 256 ==> FieldLength(Number(name, n)) <= |name| + 5
    ensures n < 0x1_0000 ==> FieldLength(Number(name, n)) <= |name| + 7
    ensures n <= U64_MAX ==> FieldLength(Number(name, n)) <= |name| + 22
  {
    NumberLength(n);
  }

  lemma FlagLength(name: string, b: bool)
    ensures FieldLength(Flag(name, b)) <= |name| + 7
  {
  }

  lemma FieldLengths()
    ensures forall name: string, key: Pubkey :: FieldLength(Key(name, key)) == |name| + 66
    ensures forall name: string, b: bool :: FieldLength(Flag(name, b)) <= |name| + 7
    ensures forall name: string, n: Byte :: FieldLength(Number(name, n)) <= |name| + 5
    ensures forall name: string, n: U64 :: FieldLength(Number(name, n)) <= |name| + 22
  {
    forall name: string, key: Pubkey ensures FieldLength(Key(name, key)) == |name| + 66 { KeyLength(name, key); }
    forall name: string, b: bool ensures FieldLength(Flag(name, b)) <= |name| + 7 { FlagLength(name, b); }
    forall name: string, n: Byte ensures FieldLength(Number(name, n)) <= |name| + 5 { NumberFieldLength(name, n); }
    forall name: string, n: U64 ensures FieldLength(Number(name, n)) <= |name| + 22 { NumberFieldLength(name, n); }
  }

  predicate IsAction(p: Printed) {
    p.Stay? || p.BurnSecondChance? || p.BurnScry? || p.LeaveGame?
  }

  predicate IsBounty(p: Printed) {
    p.AddBounty? || p.ClaimBounty?
  }

  predicate IsSetup(p: Printed) {
    p.Initialize? || p.InitVault? || p.JoinRound? || p.CloseGame? || p.InitBountyBoard? || p.CloseBountyBoard?
  }

  lemma KindLength(p: Printed)
    ensures |Kind(p)| <= 18
  {
  }

  lemma HitFits(p: Printed)
    requires p.Hit?
    ensures |Kind(p)| + LengthOfFirst(Fields(p), |Fields(p)|) <= 179
  {
    SumOfSeven(Fields(p), |Fields(p)|);
    FieldLengths();
    hide Key, Number, Flag, FieldLength, LengthOfFirst;
  }

  lemma ActionFits(p: Printed)
    requires IsAction(p)
    ensures LengthOfFirst(Fields(p), |Fields(p)|) <= 161
  {
    SumOfSeven(Fields(p), |Fields(p)|);
    FieldLengths();
    hide Key, Number, Flag, FieldLength, LengthOfFirst;
  }

  lemma BountyFits(p: Printed)
    requires IsBounty(p)
    ensures LengthOfFirst(Fields(p), |Fields(p)|) <= 161
  {
    SumOfSeven(Fields(p), |Fields(p)|);
    FieldLengths();
    hide Key, Number, Flag, FieldLength, LengthOfFirst;
  }

  lemma SetupFits(p: Printed)
    requires IsSetup(p)
    ensures LengthOfFirst(Fields(p), |Fields(p)|) <= 161
  {
    SumOfSeven(Fields(p), |Fields(p)|);
    FieldLengths();
    hide Key, Number, Flag, FieldLength, LengthOfFirst;
  }

  lemma RoundFits(p: Printed)
    requires p.CommitDeck? || p.StartRound? || p.EndRound?
    ensures |Kind(p)| + LengthOfFirst(Fields(p), |Fields(p)|) <= 179
  {
    SumOfSeven(Fields(p), |Fields(p)|);
    FieldLengths();
    hide Key, Number, Flag, FieldLength, LengthOfFirst;
  }

  /** Every line fits the logger's buffer, whatever the values. */
  lemma EveryLineFits(p: Printed)
    ensures |Line(p)| <= 188 < LOG_BUFFER_SIZE
  {
    LineLength(p);
    KindLength(p);
    hide Kind, Fields, Line, LengthOfFirst;
    if p.Hit? {
      HitFits(p);
    } else if IsAction(p) {
      ActionFits(p);
    } else if IsBounty(p) {
      BountyFits(p);
    } else if IsSetup(p) {
      SetupFits(p);
    } else {
      RoundFits(p);
    }
  }

  /** The bound is reached. */
  lemma LongestLine(winner: Pubkey)
    ensures |Line(EndRound(U64_MAX, U64_MAX, winner, U64_MAX, false))| == 188
  {
    var p := EndRound(U64_MAX, U64_MAX, winner, U64_MAX, false);
    TenPowers();
    PowNext(10, 19);
    DecimalLength(U64_MAX, 20);
    DecimalLength(U64_MAX, 19);
    LineLength(p);
    SumOfSeven(Fields(p), 5);
    hide Decimal, LengthOfFirst, Line;
  }

  // ---------------------------------------------------------------------
  // Parsing back
  // ---------------------------------------------------------------------

  const NAMES: set<string> := {
    "authority", "game_id", "fee_bps", "vault", "player", "stake", "player_count", "round", "merkle_root", "card_type",
    "value", "suit", "bust", "score", "winner", "pot", "all_busted", "mid_round", "board", "index", "bounty_type",
    "amount", "claimer" }

  lemma NamesAreSafe(name: string)
    requires name in NAMES
    ensures name != "" && '=' !in name && '|' !in name && name != PROTO_KEY
  {
  }

  /** Hex and decimal text hold no separator. */
  lemma DigitsAreSafe(ds: seq<nat>)
    requires AllBelow(ds, 16)
    ensures '|' !in Render(ds)
  {
    forall i | 0 <= i < |ds| ensures Render(ds)[i] != '|' { assert DigitChar(ds[i]) != '|'; }
  }

  lemma NamedFields(p: Printed)
    ensures forall i :: 0 <= i < |Fields(p)| ==> Fields(p)[i].key in NAMES && '|' !in Fields(p)[i].value
  {
    forall key: Pubkey ensures '|' !in HexText(key) { DigitsAreSafe(Nibbles(key)); }
    forall n: nat ensures '|' !in Decimal(n) { DigitsAreSafe(DigitsOf(n, 10)); }
    hide Decimal, HexText;
  }

  lemma KeysDiffer(p: Printed)
    ensures DistinctKeys(Fields(p))
  {
    hide Decimal, HexText;
  }

  lemma KindIsKnown(p: Printed)
    ensures Kind(p) in KNOWN_KINDS
  {
  }

  /** The client reads from every printed line its kind and all its fields. */
  lemma PrintedIsParsed(p: Printed)
    ensures var e := ParseEventLog(PROGRAM_LOG_PREFIX + Line(p));
            e.Some? && e.value.kind == Kind(p) && Holds(e.value.fields, Fields(p))
  {
    hide NAMES, KNOWN_KINDS, Fields, Kind, EventLine, Holds, ParseEventLog;
    NamedFields(p);
    KeysDiffer(p);
    KindIsKnown(p);
    forall i | 0 <= i < |Fields(p)| ensures Printable(Fields(p)[i]) && Fields(p)[i].key != PROTO_KEY {
      NamesAreSafe(Fields(p)[i].key);
    }
    EventRoundTrip(Kind(p), Fields(p), true);
  }

  // ---------------------------------------------------------------------
  // Nothing is lost
  // ---------------------------------------------------------------------

  /** The position of a line's kind among the sixteen. */
  function Tag(p: Printed): nat {
    match p
    case Initialize(_, _, _) => 0
    case InitVault(_, _) => 1
    case JoinRound(_, _, _, _) => 2
    case CommitDeck(_, _, _) => 3
    case StartRound(_, _, _) => 4
    case Hit(_, _, _, _, _, _, _) => 5
    case Stay(_, _, _, _) => 6
    case EndRound(_, _, _, _, _) => 7
    case BurnSecondChance(_, _) => 8
    case BurnScry(_, _, _) => 9
    case LeaveGame(_, _, _) => 10
    case CloseGame(_) => 11
    case InitBountyBoard(_, _) => 12
    case AddBounty(_, _, _, _) => 13
    case ClaimBounty(_, _, _, _, _) => 14
    case CloseBountyBoard(_) => 15
  }

  lemma KindsDiffer(p: Printed, q: Printed)
    requires Kind(p) == Kind(q)
    ensures Tag(p) == Tag(q)
  {
  }

  lemma SameKeys(p: Printed, q: Printed)
    requires Tag(p) == Tag(q)
    ensures |Fields(p)| == |Fields(q)| && forall i :: 0 <= i < |Fields(p)| ==> Fields(p)[i].key == Fields(q)[i].key
  {
    hide Decimal, HexText;
  }

  lemma SameFields(out: map<string, string>, fields: seq<Field>, others: seq<Field>)
    requires Holds(out, fields) && Holds(out, others) && |fields| == |others|
    requires forall i :: 0 <= i < |fields| ==> fields[i].key == others[i].key
    ensures fields == others
  {
    forall i | 0 <= i < |fields| ensures fields[i] == others[i] {
      assert fields[i].value == out[fields[i].key] == others[i].value;
    }
  }

  lemma KeyInjective(name: string, a: Pubkey, b: Pubkey)
    requires Key(name, a) == Key(name, b)
    ensures a == b
  {
    HexRoundTrip(a);
    HexRoundTrip(b);
  }

  lemma NumberInjective(name: string, m: nat, n: nat)
    requires Number(name, m) == Number(name, n)
    ensures m == n
  {
    DecimalInjective(m, n);
  }

  lemma FlagInjective(name: string, a: bool, b: bool)
    requires Flag(name, a) == Flag(name, b)
    ensures a == b
  {
    assert |"true"| != |"false"|;
  }

  lemma ArgsInjective()
    ensures forall name: string, a: Pubkey, b: Pubkey :: Key(name, a) == Key(name, b) ==> a == b
    ensures forall name: string, m: nat, n: nat :: Number(name, m) == Number(name, n) ==> m == n
    ensures forall name: string, a: bool, b: bool :: Flag(name, a) == Flag(name, b) ==> a == b
  {
    forall name: string, a: Pubkey, b: Pubkey | Key(name, a) == Key(name, b) ensures a == b { KeyInjective(name, a, b); }
    forall name: string, m: nat, n: nat | Number(name, m) == Number(name, n) ensures m == n { NumberInjective(name, m, n); }
    forall name: string, a: bool, b: bool | Flag(name, a) == Flag(name, b) ensures a == b { FlagInjective(name, a, b); }
  }

  lemma ActionInjective(p: Printed, q: Printed)
    requires IsAction(p) && Tag(p) == Tag(q) && Fields(p) == Fields(q)
    ensures p == q
  {
    ArgsInjective();
    hide Key, Number, Flag;
    assert forall i :: 0 <= i < |Fields(p)| ==> Fields(p)[i] == Fields(q)[i];
  }

  lemma AddBountyInjective(p: Printed, q: Printed)
    requires p.AddBounty? && Tag(p) == Tag(q) && Fields(p) == Fields(q)
    ensures p == q
  {
    ArgsInjective();
    hide Key, Number, Flag;
    assert forall i :: 0 <= i < |Fields(p)| ==> Fields(p)[i] == Fields(q)[i];
  }

  lemma ClaimBountyInjective(p: Printed, q: Printed)
    requires p.ClaimBounty? && Tag(p) == Tag(q) && Fields(p) == Fields(q)
    ensures p == q
  {
    ArgsInjective();
    hide Key, Number, Flag;
    assert forall i :: 0 <= i < |Fields(p)| ==> Fields(p)[i] == Fields(q)[i];
  }

  lemma InitializeInjective(p: Printed, q: Printed)
    requires p.Initialize? && Tag(p) == Tag(q) && Fields(p) == Fields(q)
    ensures p == q
  {
    ArgsInjective();
    hide Key, Number, Flag;
    assert forall i :: 0 <= i < |Fields(p)| ==> Fields(p)[i] == Fields(q)[i];
  }

  lemma SetupInjective(p: Printed, q: Printed)
    requires IsSetup(p) && !p.Initialize? && Tag(p) == Tag(q) && Fields(p) == Fields(q)
    ensures p == q
  {
    ArgsInjective();
    hide Key, Number, Flag;
    assert forall i :: 0 <= i < |Fields(p)| ==> Fields(p)[i] == Fields(q)[i];
  }

  lemma RoundInjective(p: Printed, q: Printed)
    requires (p.Hit? || p.CommitDeck? || p.StartRound? || p.EndRound?) && Tag(p) == Tag(q) && Fields(p) == Fields(q)
    ensures p == q
  {
    ArgsInjective();
    hide Key, Number, Flag;
    assert forall i :: 0 <= i < |Fields(p)| ==> Fields(p)[i] == Fields(q)[i];
  }

  lemma FieldsInjective(p: Printed, q: Printed)
    requires Tag(p) == Tag(q) && Fields(p) == Fields(q)
    ensures p == q
  {
    hide Fields;
    if IsAction(p) {
      ActionInjective(p, q);
    } else if p.AddBounty? {
      AddBountyInjective(p, q);
    } else if p.ClaimBounty? {
      ClaimBountyInjective(p, q);
    } else if p.Initialize? {
      InitializeInjective(p, q);
    } else if IsSetup(p) {
      SetupInjective(p, q);
    } else {
      RoundInjective(p, q);
    }
  }

  /** The parsed event determines every key, number and flag that was printed. */
  lemma ParsedDetermines(p: Printed, q: Printed)
    requires ParseEventLog(PROGRAM_LOG_PREFIX + Line(p)) == ParseEventLog(PROGRAM_LOG_PREFIX + Line(q))
    ensures p == q
  {
    hide ParseEventLog, Line, Kind, Fields, Tag, Holds;
    PrintedIsParsed(p);
    PrintedIsParsed(q);
    KindsDiffer(p, q);
    SameKeys(p, q);
    SameFields(ParseEventLog(PROGRAM_LOG_PREFIX + Line(p)).value.fields, Fields(p), Fields(q));
    FieldsInjective(p, q);
  }

  // ---------------------------------------------------------------------
  // What each key carries
  // ---------------------------------------------------------------------

  predicate ReadsNumber(out: map<string, string>, name: string, n: nat) {
    name in out && ParseU64(out[name]) == Some(n)
  }

  predicate ReadsKey(out: map<string, string>, name: string, key: Pubkey) {
    name in out && out[name] == HexText(key)
  }

  predicate ReadsFlag(out: map<string, string>, name: string, b: bool) {
    name in out && out[name] == if b then "true" else "false"
  }

  /** What a client finds in an event, by kind and by key. */
  predicate Says(kind: string, out: map<string, string>, p: Printed) {
    && ReadsNumber(out, "game_id", p.gameId)
    && (match p
        case Initialize(_, _, _) =>
          kind == "initialize" && ReadsKey(out, "authority", p.authority) && ReadsNumber(out, "fee_bps", p.feeBps)
        case InitVault(_, _) => kind == "init_vault" && ReadsKey(out, "vault", p.vault)
        case JoinRound(_, _, _, _) =>
          kind == "join_round" && ReadsKey(out, "player", p.player) && ReadsNumber(out, "stake", p.stake)
          && ReadsNumber(out, "player_count", p.playerCount)
        case CommitDeck(_, _, _) =>
          kind == "commit_deck" && ReadsNumber(out, "round", p.round) && ReadsKey(out, "merkle_root", p.merkleRoot)
        case StartRound(_, _, _) =>
          kind == "start_round" && ReadsNumber(out, "round", p.round)
          && ReadsNumber(out, "player_count", p.playerCount)
        case Hit(_, _, _, _, _, _, _) =>
          kind == "hit" && ReadsKey(out, "player", p.player) && ReadsNumber(out, "round", p.round)
          && ReadsNumber(out, "card_type", p.cardType) && ReadsNumber(out, "value", p.value)
          && ReadsNumber(out, "suit", p.suit) && ReadsFlag(out, "bust", p.bust)
        case Stay(_, _, _, _) =>
          kind == "stay" && ReadsKey(out, "player", p.player) && ReadsNumber(out, "round", p.round)
          && ReadsNumber(out, "score", p.score)
        case EndRound(_, _, _, _, _) =>
          kind == "end_round" && ReadsNumber(out, "round", p.round) && ReadsKey(out, "winner", p.winner)
          && ReadsNumber(out, "pot", p.pot) && ReadsFlag(out, "all_busted", p.allBusted)
        case BurnSecondChance(_, _) => kind == "burn_second_chance" && ReadsKey(out, "player", p.player)
        case BurnScry(_, _, _) =>
          kind == "burn_scry" && ReadsKey(out, "player", p.player) && ReadsNumber(out, "round", p.round)
        case LeaveGame(_, _, _) =>
          kind == "leave_game" && ReadsKey(out, "player", p.player) && ReadsFlag(out, "mid_round", p.midRound)
        case CloseGame(_) => kind == "close_game"
        case InitBountyBoard(_, _) => kind == "init_bounty_board" && ReadsKey(out, "board", p.board)
        case AddBounty(_, _, _, _) =>
          kind == "add_bounty" && ReadsNumber(out, "index", p.index) && ReadsNumber(out, "bounty_type", p.bountyType)
          && ReadsNumber(out, "amount", p.amount)
        case ClaimBounty(_, _, _, _, _) =>
          kind == "claim_bounty" && ReadsKey(out, "claimer", p.claimer) && ReadsNumber(out, "index", p.index)
          && ReadsNumber(out, "bounty_type", p.bountyType) && ReadsNumber(out, "amount", p.amount)
        case CloseBountyBoard(_) => kind == "close_bounty_board")
  }

  lemma SaysNumber(out: map<string, string>, fields: seq<Field>, i: nat, name: string, n: U64)
    requires Holds(out, fields) && i < |fields| && fields[i] == Number(name, n)
    ensures ReadsNumber(out, name, n)
  {
    U64RoundTrip(n);
  }

  lemma SaysKey(out: map<string, string>, fields: seq<Field>, i: nat, name: string, key: Pubkey)
    requires Holds(out, fields) && i < |fields| && fields[i] == Key(name, key)
    ensures ReadsKey(out, name, key)
  {
  }

  lemma SaysFlag(out: map<string, string>, fields: seq<Field>, i: nat, name: string, b: bool)
    requires Holds(out, fields) && i < |fields| && fields[i] == Flag(name, b)
    ensures ReadsFlag(out, name, b)
  {
  }

  lemma ActionSays(out: map<string, string>, p: Printed)
    requires IsAction(p) && Holds(out, Fields(p))
    ensures Says(Kind(p), out, p)
  {
    hide Holds, Key, Number, Flag, ReadsKey, ReadsNumber, ReadsFlag;
    var fields := Fields(p);
    SaysKey(out, fields, 0, "player", p.player);
    SaysNumber(out, fields, 1, "game_id", p.gameId);
    if p.Stay? || p.BurnScry? {
      SaysNumber(out, fields, 2, "round", p.round);
    }
    if p.Stay? {
      SaysNumber(out, fields, 3, "score", p.score);
    }
    if p.LeaveGame? {
      SaysFlag(out, fields, 2, "mid_round", p.midRound);
    }
  }

  lemma BountySays(out: map<string, string>, p: Printed)
    requires IsBounty(p) && Holds(out, Fields(p))
    ensures Says(Kind(p), out, p)
  {
    hide Holds, Key, Number, Flag, ReadsKey, ReadsNumber, ReadsFlag;
    var fields := Fields(p);
    var at := if p.AddBounty? then 0 else 1;
    if p.ClaimBounty? {
      SaysKey(out, fields, 0, "claimer", p.claimer);
    }
    SaysNumber(out, fields, at, "game_id", p.gameId);
    SaysNumber(out, fields, at + 1, "index", p.index);
    SaysNumber(out, fields, at + 2, "bounty_type", p.bountyType);
    SaysNumber(out, fields, at + 3, "amount", p.amount);
  }

  lemma SetupSays(out: map<string, string>, p: Printed)
    requires IsSetup(p) && Holds(out, Fields(p))
    ensures Says(Kind(p), out, p)
  {
    hide Holds, Key, Number, Flag, ReadsKey, ReadsNumber, ReadsFlag;
    var fields := Fields(p);
    SaysNumber(out, fields, if p.Initialize? || p.JoinRound? then 1 else 0, "game_id", p.gameId);
    if p.Initialize? {
      SaysKey(out, fields, 0, "authority", p.authority);
      SaysNumber(out, fields, 2, "fee_bps", p.feeBps);
    } else if p.InitVault? {
      SaysKey(out, fields, 1, "vault", p.vault);
    } else if p.JoinRound? {
      SaysKey(out, fields, 0, "player", p.player);
      SaysNumber(out, fields, 2, "stake", p.stake);
      SaysNumber(out, fields, 3, "player_count", p.playerCount);
    } else if p.InitBountyBoard? {
      SaysKey(out, fields, 1, "board", p.board);
    }
  }

  lemma RoundSays(out: map<string, string>, p: Printed)
    requires p.CommitDeck? || p.StartRound? || p.EndRound?
    requires Holds(out, Fields(p))
    ensures Says(Kind(p), out, p)
  {
    hide Holds, Key, Number, Flag, ReadsKey, ReadsNumber, ReadsFlag;
    var fields := Fields(p);
    SaysNumber(out, fields, 0, "game_id", p.gameId);
    SaysNumber(out, fields, 1, "round", p.round);
    if p.CommitDeck? {
      SaysKey(out, fields, 2, "merkle_root", p.merkleRoot);
    } else if p.StartRound? {
      SaysNumber(out, fields, 2, "player_count", p.playerCount);
    } else {
      SaysKey(out, fields, 2, "winner", p.winner);
      SaysNumber(out, fields, 3, "pot", p.pot);
      SaysFlag(out, fields, 4, "all_busted", p.allBusted);
    }
  }

  lemma HitSays(out: map<string, string>, p: Printed)
    requires p.Hit? && Holds(out, Fields(p))
    ensures Says(Kind(p), out, p)
  {
    hide Holds, Key, Number, Flag, ReadsKey, ReadsNumber, ReadsFlag;
    var fields := Fields(p);
    SaysKey(out, fields, 0, "player", p.player);
    SaysNumber(out, fields, 1, "game_id", p.gameId);
    SaysNumber(out, fields, 2, "round", p.round);
    SaysNumber(out, fields, 3, "card_type", p.cardType);
    SaysNumber(out, fields, 4, "value", p.value);
    SaysNumber(out, fields, 5, "suit", p.suit);
    SaysFlag(out, fields, 6, "bust", p.bust);
  }

  /** Every printed line is parsed as the event it names, each key carrying its own argument. */
  lemma EventSays(p: Printed)
    ensures var e := ParseEventLog("Program log: " + Line(p));
            e.Some? && Says(e.value.kind, e.value.fields, p)
  {
    hide ParseEventLog, Line, Kind, Fields, Says, Holds;
    PrintedIsParsed(p);
    var out := ParseEventLog(PROGRAM_LOG_PREFIX + Line(p)).value.fields;
    if p.Hit? {
      HitSays(out, p);
    } else if IsAction(p) {
      ActionSays(out, p);
    } else if IsBounty(p) {
      BountySays(out, p);
    } else if IsSetup(p) {
      SetupSays(out, p);
    } else {
      RoundSays(out, p);
    }
  }
}
