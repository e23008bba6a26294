/** The PlayerState account as bytes: the program's offsets and the client's sequential decoder. */
module PlayerLayout {
  import opened Options
  import opened Numbers
  import opened Cards
  import opened Scoring
  import opened Bytes

  const PLAYER_STATE_DISCRIMINATOR: Byte := 2
  const MIN_DATA_LEN := 110

  type Slot = i: nat | i < MAX_HAND_SIZE

  datatype Field =
    | Discriminator | Bump | Player | GameId | HandSize | CardAt(index: Slot) | IsActive | InactiveReason | BustCardValue
    | Score | StakedAmount | HasUsedSecondChance | HasUsedScry | TotalWins | TotalGames

  /** Where each field lies. */
  function Place(f: Field): (s: Span)
    ensures s.offset + s.width <= MIN_DATA_LEN
  {
    match f
    case Discriminator => Span(0, 1)
    case Bump => Span(1, 1)
    case Player => Span(2, 32)
    case GameId => Span(34, 8)
    case HandSize => Span(42, 1)
    case CardAt(index) => Span(43 + index * 3, 3)
    case IsActive => Span(73, 1)
    case InactiveReason => Span(74, 1)
    case BustCardValue => Span(75, 1)
    case Score => Span(76, 8)
    case StakedAmount => Span(84, 8)
    case HasUsedSecondChance => Span(92, 1)
    case HasUsedScry => Span(93, 1)
    case TotalWins => Span(94, 8)
    case TotalGames => Span(102, 8)
  }

  predicate IsFlag(f: Field) {
    f.IsActive? || f.HasUsedSecondChance? || f.HasUsedScry?
  }

  /** Fields lie inside the account and do not overlap. */
  lemma FieldsApart(f: Field, g: Field)
    ensures Place(f).offset + Place(f).width <= MIN_DATA_LEN
    ensures f != g ==> Apart(Place(f), Place(g))
  {
  }

  /** The record the bytes stand for, with all ten card slots. */
  datatype Account = Account(
    discriminator: Byte, bump: Byte, player: seq<Byte>, gameId: nat, handSize: Byte, cards: seq<Card>,
    isActive: bool, inactiveReason: Byte, bustCardValue: Byte, score: nat, stakedAmount: nat,
    hasUsedSecondChance: bool, hasUsedScry: bool, totalWins: nat, totalGames: nat)

  function CardFrom(b: seq<Byte>): Card
    requires |b| == 3
  {
    Card(b[0], b[1], b[2])
  }

  function CardBytes(c: Card): (b: seq<Byte>)
    ensures |b| == 3 && CardFrom(b) == c
  {
    [c.value, c.cardType, c.suit]
  }

  function CardsOf(b: seq<Byte>): (cards: seq<Card>)
    requires |b| >= MIN_DATA_LEN
    ensures |cards| == MAX_HAND_SIZE
  {
    seq(MAX_HAND_SIZE, i requires 0 <= i < MAX_HAND_SIZE => CardFrom(At(b, Place(CardAt(i)))))
  }

  /** What the program's getters read. */
  function AccountOf(b: seq<Byte>): (r: Account)
    requires |b| >= MIN_DATA_LEN
    ensures |r.cards| == MAX_HAND_SIZE
  {
    Account(
      At(b, Place(Discriminator))[0], At(b, Place(Bump))[0], At(b, Place(Player)), FromLe(At(b, Place(GameId))),
      At(b, Place(HandSize))[0], CardsOf(b),
      At(b, Place(IsActive))[0] != 0, At(b, Place(InactiveReason))[0], At(b, Place(BustCardValue))[0],
      FromLe(At(b, Place(Score))), FromLe(At(b, Place(StakedAmount))),
      At(b, Place(HasUsedSecondChance))[0] != 0, At(b, Place(HasUsedScry))[0] != 0,
      FromLe(At(b, Place(TotalWins))), FromLe(At(b, Place(TotalGames))))
  }

  /** Which bytes each part of the record comes from. */
  lemma AccountInBytes(b: seq<Byte>, i: Slot)
    requires |b| >= 110
    ensures var r := AccountOf(b);
            && r.discriminator == b[0] && r.bump == b[1] && r.player == b[2..34] && r.gameId == FromLe(b[34..42])
            && r.handSize == b[42]
            && r.cards[i].value == b[43 + 3 * i] && r.cards[i].cardType == b[44 + 3 * i]
            && r.cards[i].suit == b[45 + 3 * i]
            && r.isActive == (b[73] != 0) && r.inactiveReason == b[74] && r.bustCardValue == b[75]
            && r.score == FromLe(b[76..84]) && r.stakedAmount == FromLe(b[84..92])
            && r.hasUsedSecondChance == (b[92] != 0) && r.hasUsedScry == (b[93] != 0)
            && r.totalWins == FromLe(b[94..102]) && r.totalGames == FromLe(b[102..110])
  {
  }

  /** The cards in hand: the first `size` slots, ten at most. */
  function FirstCards(cards: seq<Card>, size: Byte): (hand: seq<Card>)
    requires |cards| == MAX_HAND_SIZE
    ensures |hand| == (if size < MAX_HAND_SIZE then size else MAX_HAND_SIZE) && hand <= cards
  {
    cards[..if size < MAX_HAND_SIZE then size else MAX_HAND_SIZE]
  }

  function Hand(r: Account): seq<Card>
    requires |r.cards| == MAX_HAND_SIZE
  {
    FirstCards(r.cards, r.handSize)
  }

  function Pushed(r: Account, card: Card): Account
    requires |r.cards| == MAX_HAND_SIZE && r.handSize < MAX_HAND_SIZE
  {
    r.(cards := r.cards[r.handSize := card], handSize := r.handSize + 1)
  }

  /** The slot of the dropped card keeps its bytes. */
  function Popped(r: Account): Account {
    r.(handSize := if r.handSize > 0 then r.handSize - 1 else 0)
  }

  /** On hands of at most ten cards, pushing appends, popping drops the last card, and a pop undoes a push. */
  lemma PushAndPop(r: Account, card: Card)
    requires |r.cards| == MAX_HAND_SIZE && r.handSize <= MAX_HAND_SIZE
    ensures Hand(Popped(r)) == if Hand(r) == [] then [] else Hand(r)[..|Hand(r)| - 1]
    ensures r.handSize < MAX_HAND_SIZE ==>
              && Hand(Pushed(r, card)) == Hand(r) + [card]
              && Hand(Popped(Pushed(r, card))) == Hand(r)
  {
  }

  /** One field of the record replaced by the value that `val` encodes. */
  function Update(r: Account, f: Field, val: seq<Byte>): Account
    requires |val| == Place(f).width && |r.cards| == MAX_HAND_SIZE
  {
    match f
    case Discriminator => r.(discriminator := val[0])
    case Bump => r.(bump := val[0])
    case Player => r.(player := val)
    case GameId => r.(gameId := FromLe(val))
    case HandSize => r.(handSize := val[0])
    case CardAt(index) => r.(cards := r.cards[index := CardFrom(val)])
    case IsActive => r.(isActive := val[0] != 0)
    case InactiveReason => r.(inactiveReason := val[0])
    case BustCardValue => r.(bustCardValue := val[0])
    case Score => r.(score := FromLe(val))
    case StakedAmount => r.(stakedAmount := FromLe(val))
    case HasUsedSecondChance => r.(hasUsedSecondChance := val[0] != 0)
    case HasUsedScry => r.(hasUsedScry := val[0] != 0)
    case TotalWins => r.(totalWins := FromLe(val))
    case TotalGames => r.(totalGames := FromLe(val))
  }

  lemma CardsDiffer(b: seq<Byte>, after: seq<Byte>, f: Field, val: seq<Byte>)
    requires |b| >= MIN_DATA_LEN && |after| >= MIN_DATA_LEN && |val| == Place(f).width
    requires forall g: Field :: At(after, Place(g)) == if g == f then val else At(b, Place(g))
    ensures CardsOf(after) == if f.CardAt? then CardsOf(b)[f.index := CardFrom(val)] else CardsOf(b)
  {
    hide Place, At;
  }

  lemma WideFieldDiffers(b: seq<Byte>, after: seq<Byte>, f: Field, val: seq<Byte>)
    requires |b| >= MIN_DATA_LEN && |after| >= MIN_DATA_LEN && |val| == Place(f).width && Place(f).width > 1
    requires forall g: Field :: At(after, Place(g)) == if g == f then val else At(b, Place(g))
    ensures AccountOf(after) == Update(AccountOf(b), f, val)
  {
    CardsDiffer(b, after, f, val);
    hide Place, At, FromLe, CardsOf, CardFrom;
  }

  lemma NarrowFieldDiffers(b: seq<Byte>, after: seq<Byte>, f: Field, val: seq<Byte>)
    requires |b| >= MIN_DATA_LEN && |after| >= MIN_DATA_LEN && |val| == Place(f).width && Place(f).width <= 1
    requires forall g: Field :: At(after, Place(g)) == if g == f then val else At(b, Place(g))
    ensures AccountOf(after) == Update(AccountOf(b), f, val)
  {
    CardsDiffer(b, after, f, val);
    hide Place, At, FromLe, CardsOf, CardFrom;
  }

  /** Writing a field's bytes changes that field of the record and nothing else. */
  lemma WriteChangesOneField(b: seq<Byte>, f: Field, val: seq<Byte>)
    requires |b| >= MIN_DATA_LEN && |val| == Place(f).width
    ensures AccountOf(Written(b, Place(f).offset, val)) == Update(AccountOf(b), f, val)
  {
    hide Place, Apart, At, Written, AccountOf, Update;
    var after := Written(b, Place(f).offset, val);
    forall g: Field ensures At(after, Place(g)) == if g == f then val else At(b, Place(g)) {
      FieldsApart(f, g);
      AtWritten(b, Place(f), val, Place(g));
    }
    if Place(f).width > 1 { WideFieldDiffers(b, after, f, val); } else { NarrowFieldDiffers(b, after, f, val); }
  }

  // ---------------------------------------------------------------------
  // The program's writer
  // ---------------------------------------------------------------------

  class PlayerStateMut {
    const data: array<Byte>

    ghost predicate Valid() {
      data.Length >= MIN_DATA_LEN
    }

    ghost function View(): (r: Account)
      reads data
      requires Valid()
      ensures |r.cards| == MAX_HAND_SIZE
    {
      AccountOf(data[..])
    }

    /** Wraps an account's bytes; the program panics on fewer than 110. */
    constructor (data: array<Byte>)
      requires data.Length >= MIN_DATA_LEN
      ensures Valid() && this.data == data
    {
      this.data := data;
    }

    method SetByte(f: Field, val: Byte)
      requires Valid() && Place(f).width <= 1
      modifies data
      ensures View() == Update(old(View()), f, [val])
    {
      hide AccountOf, Update;
      WriteChangesOneField(data[..], f, [val]);
      CopyInto(data, Place(f).offset, [val]);
    }

    method SetFlag(f: Field, val: bool)
      requires Valid() && IsFlag(f)
      modifies data
      ensures View() == Update(old(View()), f, [if val then 1 else 0])
    {
      SetByte(f, if val then 1 else 0);
    }

    method SetU64(f: Field, val: nat)
      requires Valid() && Place(f).width == 8 && val <= U64_MAX
      modifies data
      ensures View() == Update(old(View()), f, ToLe(val, 8)) && FromLe(ToLe(val, 8)) == val
    {
      hide AccountOf, Update;
      Widths();
      LeRoundTrip(val, 8);
      WriteChangesOneField(data[..], f, ToLe(val, 8));
      CopyInto(data, Place(f).offset, ToLe(val, 8));
    }

    method SetPlayer(val: seq<Byte>)
      requires Valid() && |val| == 32
      modifies data
      ensures View() == old(View()).(player := val)
    {
      hide AccountOf;
      WriteChangesOneField(data[..], Player, val);
      CopyInto(data, Place(Player).offset, val);
    }

    /** The program panics on an index past the ten slots. */
    method SetCardAt(index: nat, card: Card)
      requires Valid() && index < MAX_HAND_SIZE
      modifies data
      ensures View() == old(View()).(cards := old(View()).cards[index := card])
    {
      hide AccountOf;
      WriteChangesOneField(data[..], CardAt(index), CardBytes(card));
      CopyInto(data, Place(CardAt(index)).offset, CardBytes(card));
    }

    method GetHandSize() returns (size: Byte)
      requires Valid()
      ensures size == View().handSize
    {
      size := data[Place(HandSize).offset];
      assert At(data[..], Place(HandSize))[0] == size;
    }

    /** Appends to the hand; refused on a full hand, where the program panics. */
    method PushCard(card: Card) returns (ok: bool)
      requires Valid()
      modifies data
      ensures ok <==> old(View()).handSize < MAX_HAND_SIZE
      ensures View() == if ok then Pushed(old(View()), card) else old(View())
    {
      hide AccountOf;
      var index := GetHandSize();
      if index >= MAX_HAND_SIZE {
        return false;
      }
      SetCardAt(index, card);
      SetByte(HandSize, index + 1);
      return true;
    }

    method PopCard()
      requires Valid()
      modifies data
      ensures View() == Popped(old(View()))
    {
      hide AccountOf;
      var size := GetHandSize();
      if size > 0 {
        SetByte(HandSize, size - 1);
      }
    }
  }

  // ---------------------------------------------------------------------
  // The client's decoder
  // ---------------------------------------------------------------------

  datatype ClientPlayer = ClientPlayer(
    bump: Byte, player: seq<Byte>, gameId: nat, handSize: Byte, hand: seq<Card>,
    isActive: bool, inactiveReason: Byte, bustCardValue: Byte, score: nat, stakedAmount: nat,
    hasUsedSecondChance: bool, hasUsedScry: bool, totalWins: nat, totalGames: nat)

  datatype Decoded = Decoded(player: ClientPlayer) | TooShort | WrongDiscriminator | InvalidCardType | InvalidReason

  /** The program's record as the client holds it: only the cards in hand. */
  function ForClient(r: Account): ClientPlayer
    requires |r.cards| == MAX_HAND_SIZE
  {
    ClientPlayer(r.bump, r.player, r.gameId, r.handSize, Hand(r), r.isActive, r.inactiveReason, r.bustCardValue,
                 r.score, r.stakedAmount, r.hasUsedSecondChance, r.hasUsedScry, r.totalWins, r.totalGames)
  }

  predicate KnownTypes(hand: seq<Card>) {
    forall i :: 0 <= i < |hand| ==> hand[i].cardType <= 2
  }

  function DecodedPlayer(data: seq<Byte>): Decoded {
    if |data| < MIN_DATA_LEN then TooShort
    else
      var r := AccountOf(data);
      if r.discriminator != PLAYER_STATE_DISCRIMINATOR then WrongDiscriminator
      else if !KnownTypes(Hand(r)) then InvalidCardType
      else if r.inactiveReason > 2 then InvalidReason
      else Decoded(ForClient(r))
  }

  method ReadCard(reader: ByteReader, i: Slot) returns (card: Card)
    requires |reader.bytes| >= MIN_DATA_LEN && reader.offset == 43 + 3 * i
    modifies reader
    ensures reader.offset == 43 + 3 * (i + 1) && card == CardsOf(reader.bytes)[i]
  {
    var value := reader.U8();
    var cardTypeRaw := reader.U8();
    var suit := reader.U8();
    card := Card(value.value, cardTypeRaw.value, suit.value);
    assert At(reader.bytes, Place(CardAt(i))) == CardBytes(card);
  }

  /** All ten slots are read; only those in hand are checked and kept. */
  method ReadHand(reader: ByteReader, handSize: Byte) returns (hand: Option<seq<Card>>)
    requires |reader.bytes| >= MIN_DATA_LEN && reader.offset == 43 && handSize == At(reader.bytes, Place(HandSize))[0]
    modifies reader
    ensures hand.Some? ==> reader.offset == 73
    ensures var full := FirstCards(CardsOf(reader.bytes), handSize);
            hand == if KnownTypes(full) then Some(full) else None
  {
    ghost var full := FirstCards(CardsOf(reader.bytes), handSize);
    hide At, Place, CardsOf, FirstCards;
    var kept: seq<Card> := [];
    for i: nat := 0 to MAX_HAND_SIZE
      invariant reader.offset == 43 + 3 * i
      invariant kept == full[..if i < handSize then i else |full|] && KnownTypes(kept)
    {
      var card := ReadCard(reader, i);
      if i < handSize {
        assert card == full[i];
        if card.cardType > 2 {
          return None;
        }
        kept := kept + [card];
      }
    }
    assert kept == full;
    return Some(kept);
  }

  method ReadHead(reader: ByteReader) returns (bump: Byte, player: seq<Byte>, gameId: nat, handSize: Byte)
    requires |reader.bytes| >= MIN_DATA_LEN && reader.offset == 1
    modifies reader
    ensures reader.offset == 43
    ensures bump == At(reader.bytes, Place(Bump))[0] && player == At(reader.bytes, Place(Player))
    ensures gameId == FromLe(At(reader.bytes, Place(GameId))) && handSize == At(reader.bytes, Place(HandSize))[0]
  {
    hide FromLe;
    var first := reader.U8();
    var key := reader.Bytes32();
    var id := reader.Le(8);
    var size := reader.U8();
    bump, player, gameId, handSize := first.value, key.value, id.value, size.value;
  }

  method ReadStatus(reader: ByteReader)
    returns (isActive: bool, inactiveReason: Byte, bustCardValue: Byte, score: nat, stakedAmount: nat)
    requires |reader.bytes| >= MIN_DATA_LEN && reader.offset == 73
    modifies reader
    ensures reader.offset == 92
    ensures isActive == (At(reader.bytes, Place(IsActive))[0] != 0) && inactiveReason == At(reader.bytes, Place(InactiveReason))[0]
    ensures bustCardValue == At(reader.bytes, Place(BustCardValue))[0]
    ensures score == FromLe(At(reader.bytes, Place(Score))) && stakedAmount == FromLe(At(reader.bytes, Place(StakedAmount)))
  {
    hide FromLe;
    var active := reader.Bool();
    var reason := reader.U8();
    var bust := reader.U8();
    var points := reader.Le(8);
    var stake := reader.Le(8);
    isActive, inactiveReason, bustCardValue := active.value, reason.value, bust.value;
    score, stakedAmount := points.value, stake.value;
  }

  method ReadTotals(reader: ByteReader)
    returns (hasUsedSecondChance: bool, hasUsedScry: bool, totalWins: nat, totalGames: nat)
    requires |reader.bytes| >= MIN_DATA_LEN && reader.offset == 92
    modifies reader
    ensures hasUsedSecondChance == (At(reader.bytes, Place(HasUsedSecondChance))[0] != 0)
    ensures hasUsedScry == (At(reader.bytes, Place(HasUsedScry))[0] != 0)
    ensures totalWins == FromLe(At(reader.bytes, Place(TotalWins))) && totalGames == FromLe(At(reader.bytes, Place(TotalGames)))
  {
    hide FromLe;
    var chance := reader.Bool();
    var scry := reader.Bool();
    var wins := reader.Le(8);
    var games := reader.Le(8);
    hasUsedSecondChance, hasUsedScry, totalWins, totalGames := chance.value, scry.value, wins.value, games.value;
  }

  /** Reading field after field yields what the program's offsets hold, or the same refusal. */
  method DecodePlayerState(data: seq<Byte>) returns (r: Decoded)
    ensures r == DecodedPlayer(data)
  {
    if |data| < MIN_DATA_LEN {
      return TooShort;
    }
    var reader := new ByteReader(data);
    var discriminator := reader.U8();
    assert discriminator.value == At(data, Place(Discriminator))[0];
    if discriminator.value != PLAYER_STATE_DISCRIMINATOR {
      return WrongDiscriminator;
    }
    hide FromLe, At, Place, CardsOf;
    var bump, player, gameId, handSize := ReadHead(reader);
    var hand := ReadHand(reader, handSize);
    if hand.None? {
      return InvalidCardType;
    }
    var isActive, inactiveReason, bustCardValue, score, stakedAmount := ReadStatus(reader);
    if inactiveReason > 2 {
      return InvalidReason;
    }
    var hasUsedSecondChance, hasUsedScry, totalWins, totalGames := ReadTotals(reader);
    r := Decoded(ClientPlayer(
      bump, player, gameId, handSize, hand.value, isActive, inactiveReason, bustCardValue, score, stakedAmount,
      hasUsedSecondChance, hasUsedScry, totalWins, totalGames));
  }
}
