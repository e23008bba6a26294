/** The GameSession account as bytes: the program's offsets and the client's sequential decoder. */
module SessionLayout {
  import opened Options
  import opened Numbers
  import opened Bytes
  import GameSpec

  const GAME_SESSION_DISCRIMINATOR: Byte := 1
  const MIN_DATA_LEN := 395

  type Seat = s: nat | s < GameSpec.MAX_PLAYERS

  datatype Field =
    | Discriminator | Bump | GameId | Authority | House | Dealer | Treasury | TokenMint | Vault
    | PlayerCount | TurnOrder(slot: Seat) | CurrentTurnIndex | RoundActive | RoundNumber | PotAmount
    | MerkleRoot | DeckCommitted | DrawCounter | TreasuryFeeBps | RolloverCount | LastActionSlot | VaultBump

  /** Where each field lies. */
  function Place(f: Field): (s: Span)
    ensures s.offset + s.width <= MIN_DATA_LEN
  {
    match f
    case Discriminator => Span(0, 1)
    case Bump => Span(1, 1)
    case GameId => Span(2, 8)
    case Authority => Span(10, 32)
    case House => Span(42, 32)
    case Dealer => Span(74, 32)
    case Treasury => Span(106, 32)
    case TokenMint => Span(138, 32)
    case Vault => Span(170, 32)
    case PlayerCount => Span(202, 1)
    case TurnOrder(slot) => Span(203 + slot * 32, 32)
    case CurrentTurnIndex => Span(331, 1)
    case RoundActive => Span(332, 1)
    case RoundNumber => Span(333, 8)
    case PotAmount => Span(341, 8)
    case MerkleRoot => Span(349, 32)
    case DeckCommitted => Span(381, 1)
    case DrawCounter => Span(382, 1)
    case TreasuryFeeBps => Span(383, 2)
    case RolloverCount => Span(385, 1)
    case LastActionSlot => Span(386, 8)
    case VaultBump => Span(394, 1)
  }

  predicate IsFlag(f: Field) {
    f.RoundActive? || f.DeckCommitted?
  }

  /** Fields lie inside the account and do not overlap. */
  lemma FieldsApart(f: Field, g: Field)
    ensures Place(f).offset + Place(f).width <= MIN_DATA_LEN
    ensures f != g ==> Apart(Place(f), Place(g))
  {
  }

  /** The record the bytes stand for. */
  datatype Session = Session(
    discriminator: Byte, bump: Byte, gameId: nat,
    authority: seq<Byte>, house: seq<Byte>, dealer: seq<Byte>, treasury: seq<Byte>, tokenMint: seq<Byte>, vault: seq<Byte>,
    playerCount: Byte, turnOrder: seq<seq<Byte>>, currentTurnIndex: Byte, roundActive: bool,
    roundNumber: nat, potAmount: nat, merkleRoot: seq<Byte>, deckCommitted: bool,
    drawCounter: Byte, treasuryFeeBps: nat, rolloverCount: Byte, lastActionSlot: nat, vaultBump: Byte)

  function TurnOrderOf(b: seq<Byte>): (order: seq<seq<Byte>>)
    requires |b| >= MIN_DATA_LEN
    ensures |order| == GameSpec.MAX_PLAYERS
  {
    seq(GameSpec.MAX_PLAYERS, slot requires 0 <= slot < GameSpec.MAX_PLAYERS => At(b, Place(TurnOrder(slot))))
  }

  /** What the program's getters read. */
  function SessionOf(b: seq<Byte>): Session
    requires |b| >= MIN_DATA_LEN
  {
    Session(
      At(b, Place(Discriminator))[0], At(b, Place(Bump))[0], FromLe(At(b, Place(GameId))),
      At(b, Place(Authority)), At(b, Place(House)), At(b, Place(Dealer)), At(b, Place(Treasury)),
      At(b, Place(TokenMint)), At(b, Place(Vault)), At(b, Place(PlayerCount))[0], TurnOrderOf(b),
      At(b, Place(CurrentTurnIndex))[0], At(b, Place(RoundActive))[0] != 0,
      FromLe(At(b, Place(RoundNumber))), FromLe(At(b, Place(PotAmount))),
      At(b, Place(MerkleRoot)), At(b, Place(DeckCommitted))[0] != 0, At(b, Place(DrawCounter))[0],
      FromLe(At(b, Place(TreasuryFeeBps))), At(b, Place(RolloverCount))[0],
      FromLe(At(b, Place(LastActionSlot))), At(b, Place(VaultBump))[0])
  }

  lemma Places()
    ensures Place(Discriminator) == Span(0, 1) && Place(Bump) == Span(1, 1) && Place(GameId) == Span(2, 8)
    ensures Place(PlayerCount) == Span(202, 1) && Place(CurrentTurnIndex) == Span(331, 1)
    ensures Place(RoundActive) == Span(332, 1) && Place(RoundNumber) == Span(333, 8)
    ensures Place(PotAmount) == Span(341, 8) && Place(DeckCommitted) == Span(381, 1)
    ensures Place(DrawCounter) == Span(382, 1) && Place(TreasuryFeeBps) == Span(383, 2)
    ensures Place(RolloverCount) == Span(385, 1) && Place(LastActionSlot) == Span(386, 8)
    ensures Place(VaultBump) == Span(394, 1)
  {
  }

  /** Which bytes the keys come from. */
  lemma KeysInBytes(b: seq<Byte>)
    requires |b| >= 395
    ensures var r := SessionOf(b);
            && r.authority == b[10..42] && r.house == b[42..74] && r.dealer == b[74..106] && r.treasury == b[106..138]
            && r.tokenMint == b[138..170] && r.vault == b[170..202] && r.merkleRoot == b[349..381]
  {
    hide TurnOrderOf, FromLe;
  }

  lemma SeatsInBytes(b: seq<Byte>, slot: Seat)
    requires |b| >= 395
    ensures TurnOrderOf(b)[slot] == b[203 + 32 * slot..235 + 32 * slot]
  {
  }

  /** Which bytes the numbers come from. */
  lemma NumbersInBytes(b: seq<Byte>)
    requires |b| >= 395
    ensures var r := SessionOf(b);
            && r.gameId == FromLe(b[2..10]) && r.roundNumber == FromLe(b[333..341])
            && r.potAmount == FromLe(b[341..349]) && r.treasuryFeeBps == FromLe(b[383..385])
            && r.lastActionSlot == FromLe(b[386..394])
  {
    Places();
    hide Place, TurnOrderOf, FromLe;
  }

  /** Which bytes the counters and flags are. */
  lemma CountersInBytes(b: seq<Byte>)
    requires |b| >= 395
    ensures var r := SessionOf(b);
            && r.discriminator == b[0] && r.bump == b[1] && r.playerCount == b[202] && r.currentTurnIndex == b[331]
            && r.roundActive == (b[332] != 0) && r.deckCommitted == (b[381] != 0) && r.drawCounter == b[382]
            && r.rolloverCount == b[385] && r.vaultBump == b[394]
  {
    Places();
    hide Place, TurnOrderOf, FromLe;
  }

  /** One field of the record replaced by the value that `val` encodes. */
  function Update(r: Session, f: Field, val: seq<Byte>): Session
    requires |val| == Place(f).width && |r.turnOrder| == GameSpec.MAX_PLAYERS
  {
    match f
    case Discriminator => r.(discriminator := val[0])
    case Bump => r.(bump := val[0])
    case GameId => r.(gameId := FromLe(val))
    case Authority => r.(authority := val)
    case House => r.(house := val)
    case Dealer => r.(dealer := val)
    case Treasury => r.(treasury := val)
    case TokenMint => r.(tokenMint := val)
    case Vault => r.(vault := val)
    case PlayerCount => r.(playerCount := val[0])
    case TurnOrder(slot) => r.(turnOrder := r.turnOrder[slot := val])
    case CurrentTurnIndex => r.(currentTurnIndex := val[0])
    case RoundActive => r.(roundActive := val[0] != 0)
    case RoundNumber => r.(roundNumber := FromLe(val))
    case PotAmount => r.(potAmount := FromLe(val))
    case MerkleRoot => r.(merkleRoot := val)
    case DeckCommitted => r.(deckCommitted := val[0] != 0)
    case DrawCounter => r.(drawCounter := val[0])
    case TreasuryFeeBps => r.(treasuryFeeBps := FromLe(val))
    case RolloverCount => r.(rolloverCount := val[0])
    case LastActionSlot => r.(lastActionSlot := FromLe(val))
    case VaultBump => r.(vaultBump := val[0])
  }

  lemma TurnOrderDiffers(b: seq<Byte>, after: seq<Byte>, f: Field, val: seq<Byte>)
    requires |b| >= MIN_DATA_LEN && |after| >= MIN_DATA_LEN
    requires forall g: Field :: At(after, Place(g)) == if g == f then val else At(b, Place(g))
    ensures TurnOrderOf(after) == if f.TurnOrder? then TurnOrderOf(b)[f.slot := val] else TurnOrderOf(b)
  {
    hide Place, At;
  }

  /** The fields up to the seats. */
  predicate BeforeRound(f: Field) {
    f.Discriminator? || f.Bump? || f.GameId? || f.Authority? || f.House? || f.Dealer? || f.Treasury? || f.TokenMint?
    || f.Vault? || f.PlayerCount? || f.TurnOrder?
  }

  lemma EarlyFieldDiffers(b: seq<Byte>, after: seq<Byte>, f: Field, val: seq<Byte>)
    requires |b| >= MIN_DATA_LEN && |after| >= MIN_DATA_LEN && |val| == Place(f).width && BeforeRound(f)
    requires forall g: Field :: At(after, Place(g)) == if g == f then val else At(b, Place(g))
    ensures SessionOf(after) == Update(SessionOf(b), f, val)
  {
    hide Place, At, FromLe, TurnOrderOf;
    TurnOrderDiffers(b, after, f, val);
  }

  lemma LateFieldDiffers(b: seq<Byte>, after: seq<Byte>, f: Field, val: seq<Byte>)
    requires |b| >= MIN_DATA_LEN && |after| >= MIN_DATA_LEN && |val| == Place(f).width && !BeforeRound(f)
    requires forall g: Field :: At(after, Place(g)) == if g == f then val else At(b, Place(g))
    ensures SessionOf(after) == Update(SessionOf(b), f, val)
  {
    hide Place, At, FromLe, TurnOrderOf;
    TurnOrderDiffers(b, after, f, val);
  }

  /** Writing a field's bytes changes that field of the record and nothing else. */
  lemma WriteChangesOneField(b: seq<Byte>, f: Field, val: seq<Byte>)
    requires |b| >= MIN_DATA_LEN && |val| == Place(f).width
    ensures SessionOf(Written(b, Place(f).offset, val)) == Update(SessionOf(b), f, val)
  {
    hide Place, Apart, At, Written, SessionOf, Update;
    var after := Written(b, Place(f).offset, val);
    forall g: Field ensures At(after, Place(g)) == if g == f then val else At(b, Place(g)) {
      FieldsApart(f, g);
      AtWritten(b, Place(f), val, Place(g));
    }
    if BeforeRound(f) { EarlyFieldDiffers(b, after, f, val); } else { LateFieldDiffers(b, after, f, val); }
  }

  // ---------------------------------------------------------------------
  // The program's writer
  // ---------------------------------------------------------------------

  class GameSessionMut {
    const data: array<Byte>

    ghost predicate Valid() {
      data.Length >= MIN_DATA_LEN
    }

    ghost function View(): Session
      reads data
      requires Valid()
    {
      SessionOf(data[..])
    }

    /** Wraps an account's bytes; the program panics on fewer than 395. */
    constructor (data: array<Byte>)
      requires data.Length >= MIN_DATA_LEN
      ensures Valid() && this.data == data
    {
      this.data := data;
    }

    method SetByte(f: Field, val: Byte)
      requires Valid() && Place(f).width == 1
      modifies data
      ensures View() == Update(old(View()), f, [val])
    {
      WriteChangesOneField(data[..], f, [val]);
      CopyInto(data, Place(f).offset, [val]);
    }

    method SetFlag(f: Field, val: bool)
      requires Valid() && IsFlag(f)
      modifies data
      ensures View() == if f.RoundActive? then old(View()).(roundActive := val) else old(View()).(deckCommitted := val)
    {
      SetByte(f, if val then 1 else 0);
    }

    method SetU64(f: Field, val: nat)
      requires Valid() && Place(f).width == 8 && val <= U64_MAX
      modifies data
      ensures View() == Update(old(View()), f, ToLe(val, 8)) && FromLe(ToLe(val, 8)) == val
    {
      Widths();
      LeRoundTrip(val, 8);
      WriteChangesOneField(data[..], f, ToLe(val, 8));
      CopyInto(data, Place(f).offset, ToLe(val, 8));
    }

    method SetTreasuryFeeBps(val: nat)
      requires Valid() && val < 0x1_0000
      modifies data
      ensures View() == old(View()).(treasuryFeeBps := val)
    {
      Widths();
      LeRoundTrip(val, 2);
      WriteChangesOneField(data[..], TreasuryFeeBps, ToLe(val, 2));
      CopyInto(data, Place(TreasuryFeeBps).offset, ToLe(val, 2));
    }

    method SetKey(f: Field, val: seq<Byte>)
      requires Valid() && Place(f).width == 32 && |val| == 32
      modifies data
      ensures View() == Update(old(View()), f, val)
    {
      WriteChangesOneField(data[..], f, val);
      CopyInto(data, Place(f).offset, val);
    }
  }

  // ---------------------------------------------------------------------
  // The client's decoder
  // ---------------------------------------------------------------------

  datatype Decoded = Decoded(session: Session) | TooShort | WrongDiscriminator

  function DecodedSession(data: seq<Byte>): Decoded {
    if |data| < MIN_DATA_LEN then TooShort
    else if SessionOf(data).discriminator != GAME_SESSION_DISCRIMINATOR then WrongDiscriminator
    else Decoded(SessionOf(data))
  }

  /** The fields up to the seats. */
  method ReadIdentity(reader: ByteReader)
    returns (bump: Byte, gameId: nat, authority: seq<Byte>, house: seq<Byte>, dealer: seq<Byte>, treasury: seq<Byte>,
      tokenMint: seq<Byte>, vault: seq<Byte>, playerCount: Byte)
    requires |reader.bytes| >= MIN_DATA_LEN && reader.offset == 1
    modifies reader
    ensures reader.offset == 203
    ensures bump == At(reader.bytes, Place(Bump))[0] && gameId == FromLe(At(reader.bytes, Place(GameId)))
    ensures authority == At(reader.bytes, Place(Authority)) && house == At(reader.bytes, Place(House))
    ensures dealer == At(reader.bytes, Place(Dealer)) && treasury == At(reader.bytes, Place(Treasury))
    ensures tokenMint == At(reader.bytes, Place(TokenMint)) && vault == At(reader.bytes, Place(Vault))
    ensures playerCount == At(reader.bytes, Place(PlayerCount))[0]
  {
    hide FromLe;
    var first := reader.U8();
    var id := reader.Le(8);
    var key0 := reader.Bytes32();
    var key1 := reader.Bytes32();
    var key2 := reader.Bytes32();
    var key3 := reader.Bytes32();
    var key4 := reader.Bytes32();
    var key5 := reader.Bytes32();
    var count := reader.U8();
    bump, gameId, playerCount := first.value, id.value, count.value;
    authority, house, dealer := key0.value, key1.value, key2.value;
    treasury, tokenMint, vault := key3.value, key4.value, key5.value;
  }

  method ReadTurnOrder(reader: ByteReader) returns (turnOrder: seq<seq<Byte>>)
    requires |reader.bytes| >= MIN_DATA_LEN && reader.offset == 203
    modifies reader
    ensures reader.offset == 331 && turnOrder == TurnOrderOf(reader.bytes)
  {
    turnOrder := [];
    for i: nat := 0 to GameSpec.MAX_PLAYERS
      invariant reader.offset == 203 + 32 * i
      invariant turnOrder == TurnOrderOf(reader.bytes)[..i]
    {
      var key := reader.Bytes32();
      turnOrder := turnOrder + [key.value];
    }
  }

  /** The fields of the round. */
  method ReadRound(reader: ByteReader)
    returns (currentTurnIndex: Byte, roundActive: bool, roundNumber: nat, potAmount: nat, merkleRoot: seq<Byte>,
      deckCommitted: bool)
    requires |reader.bytes| >= MIN_DATA_LEN && reader.offset == 331
    modifies reader
    ensures reader.offset == 382
    ensures currentTurnIndex == At(reader.bytes, Place(CurrentTurnIndex))[0]
    ensures roundActive == (At(reader.bytes, Place(RoundActive))[0] != 0)
    ensures roundNumber == FromLe(At(reader.bytes, Place(RoundNumber))) && potAmount == FromLe(At(reader.bytes, Place(PotAmount)))
    ensures merkleRoot == At(reader.bytes, Place(MerkleRoot))
    ensures deckCommitted == (At(reader.bytes, Place(DeckCommitted))[0] != 0)
  {
    hide FromLe;
    var turn := reader.U8();
    var active := reader.Bool();
    var number := reader.Le(8);
    var pot := reader.Le(8);
    var root := reader.Bytes32();
    var committed := reader.Bool();
    currentTurnIndex, roundActive, roundNumber, potAmount := turn.value, active.value, number.value, pot.value;
    merkleRoot, deckCommitted := root.value, committed.value;
  }

  /** The fields after the deck. */
  method ReadCounters(reader: ByteReader)
    returns (drawCounter: Byte, treasuryFeeBps: nat, rolloverCount: Byte, lastActionSlot: nat, vaultBump: Byte)
    requires |reader.bytes| >= MIN_DATA_LEN && reader.offset == 382
    modifies reader
    ensures drawCounter == At(reader.bytes, Place(DrawCounter))[0]
    ensures treasuryFeeBps == FromLe(At(reader.bytes, Place(TreasuryFeeBps)))
    ensures rolloverCount == At(reader.bytes, Place(RolloverCount))[0]
    ensures lastActionSlot == FromLe(At(reader.bytes, Place(LastActionSlot))) && vaultBump == At(reader.bytes, Place(VaultBump))[0]
  {
    hide FromLe;
    var counter := reader.U8();
    var fee := reader.Le(2);
    var rollovers := reader.U8();
    var slot := reader.Le(8);
    var bump := reader.U8();
    drawCounter, treasuryFeeBps, rolloverCount := counter.value, fee.value, rollovers.value;
    lastActionSlot, vaultBump := slot.value, bump.value;
  }

  /** Reading field after field yields what the program's offsets hold. */
  method DecodeGameSession(data: seq<Byte>) returns (r: Decoded)
    ensures r == DecodedSession(data)
  {
    if |data| < MIN_DATA_LEN {
      return TooShort;
    }
    var reader := new ByteReader(data);
    var discriminator := reader.U8();
    assert discriminator.value == At(data, Place(Discriminator))[0];
    if discriminator.value != GAME_SESSION_DISCRIMINATOR {
      return WrongDiscriminator;
    }
    hide FromLe, At, Place, TurnOrderOf;
    var bump, gameId, authority, house, dealer, treasury, tokenMint, vault, playerCount := ReadIdentity(reader);
    var turnOrder := ReadTurnOrder(reader);
    var currentTurnIndex, roundActive, roundNumber, potAmount, merkleRoot, deckCommitted := ReadRound(reader);
    var drawCounter, treasuryFeeBps, rolloverCount, lastActionSlot, vaultBump := ReadCounters(reader);
    r := Decoded(Session(
      discriminator.value, bump, gameId, authority, house, dealer, treasury, tokenMint, vault, playerCount, turnOrder,
      currentTurnIndex, roundActive, roundNumber, potAmount, merkleRoot, deckCommitted, drawCounter, treasuryFeeBps,
      rolloverCount, lastActionSlot, vaultBump));
  }
}
