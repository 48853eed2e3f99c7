/** The rows of the token events a shard's receipts emitted: nested events flattened in order and
    numbered by position. */
module EventRows {
  import opened Types

  datatype FtMint = FtMint(owner: string, amount: string, memo: Option<string>)
  datatype FtTransfer = FtTransfer(oldOwner: string, newOwner: string, amount: string, memo: Option<string>)
  datatype FtBurn = FtBurn(owner: string, amount: string, memo: Option<string>)

  datatype FtEvent =
    | FtMints(mints: seq<FtMint>)
    | FtTransfers(transfers: seq<FtTransfer>)
    | FtBurns(burns: seq<FtBurn>)

  datatype NftMint = NftMint(owner: string, tokens: seq<string>, memo: Option<string>)
  datatype NftTransfer = NftTransfer(
    authorized: Option<string>, oldOwner: string, newOwner: string, tokens: seq<string>, memo: Option<string>)
  datatype NftBurn = NftBurn(authorized: Option<string>, owner: string, tokens: seq<string>, memo: Option<string>)

  datatype NftEvent =
    | NftMints(mints: seq<NftMint>)
    | NftTransfers(transfers: seq<NftTransfer>)
    | NftBurns(burns: seq<NftBurn>)

  datatype NearEvent = Nep141(ft: FtEvent) | Nep171(nft: NftEvent)

  /** The receipt that emitted an event and the contract that ran it. */
  datatype Origin = Origin(receipt: Hash, contract: AccountId)

  datatype ShardOutcome = ShardOutcome(origin: Origin, events: seq<NearEvent>)

  datatype Kind = Mint | Transfer | Burn

  /** The columns an entry decides. */
  datatype Entry =
    | FtEntry(amount: string, kind: Kind, oldOwner: string, newOwner: string, memo: string)
    | NftEntry(token: string, kind: Kind, oldOwner: string, newOwner: string, authorized: string, memo: string)

  datatype Item = Item(origin: Origin, entry: Entry)

  datatype EventRow = EventRow(origin: Origin, timestamp: nat, shard: nat, index: nat, entry: Entry)

  /** How a text is escaped for the database. */
  type Escape = string -> string

  function OrEmpty(text: Option<string>): string {
    if text.Some? then text.value else ""
  }

  function RowOf(item: Item, timestamp: nat, shard: nat, index: nat): EventRow {
    EventRow(item.origin, timestamp, shard, index, item.entry)
  }

  // ---- The entries of an event, in order -------------------------------------------------------

  function FtEntries(e: FtEvent, escape: Escape): seq<Entry> {
    match e
    case FtMints(mints) => seq(|mints|, j requires 0 <= j < |mints| => OfFtMint(mints[j], escape))
    case FtTransfers(moves) => seq(|moves|, j requires 0 <= j < |moves| => OfFtTransfer(moves[j], escape))
    case FtBurns(burns) => seq(|burns|, j requires 0 <= j < |burns| => OfFtBurn(burns[j], escape))
  }

  function OfFtMint(m: FtMint, escape: Escape): Entry {
    FtEntry(m.amount, Mint, "", escape(m.owner), escape(OrEmpty(m.memo)))
  }

  function OfFtTransfer(t: FtTransfer, escape: Escape): Entry {
    FtEntry(t.amount, Kind.Transfer, escape(t.oldOwner), escape(t.newOwner), escape(OrEmpty(t.memo)))
  }

  function OfFtBurn(b: FtBurn, escape: Escape): Entry {
    FtEntry(b.amount, Burn, escape(b.owner), "", escape(OrEmpty(b.memo)))
  }

  /** One entry per token, with the columns the tokens share. */
  function Tokens(tokens: seq<string>, kind: Kind, old_: string, new_: string, authorized: string, memo: string,
      escape: Escape): seq<Entry> {
    seq(|tokens|, j requires 0 <= j < |tokens| => NftEntry(escape(tokens[j]), kind, old_, new_, authorized, memo))
  }

  function OfNftMint(m: NftMint, escape: Escape): seq<Entry> {
    Tokens(m.tokens, Mint, "", escape(m.owner), "", escape(OrEmpty(m.memo)), escape)
  }

  function OfNftTransfer(t: NftTransfer, escape: Escape): seq<Entry> {
    Tokens(
      t.tokens, Kind.Transfer, escape(t.oldOwner), escape(t.newOwner), escape(OrEmpty(t.authorized)),
      escape(OrEmpty(t.memo)), escape)
  }

  function OfNftBurn(b: NftBurn, escape: Escape): seq<Entry> {
    Tokens(b.tokens, Burn, escape(b.owner), "", escape(OrEmpty(b.authorized)), escape(OrEmpty(b.memo)), escape)
  }

  // The same, as functions to map with.

  function MintBy(escape: Escape): NftMint -> seq<Entry> { m => OfNftMint(m, escape) }

  function TransferBy(escape: Escape): NftTransfer -> seq<Entry> { t => OfNftTransfer(t, escape) }

  function BurnBy(escape: Escape): NftBurn -> seq<Entry> { b => OfNftBurn(b, escape) }

  function NftEntries(e: NftEvent, escape: Escape): seq<Entry> {
    match e
    case NftMints(mints) => FlatMap(mints, MintBy(escape))
    case NftTransfers(moves) => FlatMap(moves, TransferBy(escape))
    case NftBurns(burns) => FlatMap(burns, BurnBy(escape))
  }

  function Entries(e: NearEvent, escape: Escape): seq<Entry> {
    match e
    case Nep141(ft) => FtEntries(ft, escape)
    case Nep171(nft) => NftEntries(nft, escape)
  }

  function At(origin: Origin, entries: seq<Entry>): seq<Item> {
    seq(|entries|, j requires 0 <= j < |entries| => Item(origin, entries[j]))
  }

  type Emitted = (NearEvent, Origin)

  /** The items of one event, as a function to map with. */
  function ItemsBy(escape: Escape): Emitted -> seq<Item> {
    (e: Emitted) => At(e.1, Entries(e.0, escape))
  }

  function Items(events: seq<Emitted>, escape: Escape): seq<Item> {
    FlatMap(events, ItemsBy(escape))
  }

  function Numbered(items: seq<Item>, timestamp: nat, shard: nat): seq<EventRow> {
    seq(|items|, i requires 0 <= i < |items| => RowOf(items[i], timestamp, shard, i))
  }

  // ---- Collecting ------------------------------------------------------------------------------

  /** The events of the outcomes in order, each with its origin. */
  function EventsOf(outcomes: seq<ShardOutcome>): seq<Emitted> {
    FlatMap(outcomes, FromOutcome)
  }

  function FromOutcome(o: ShardOutcome): seq<Emitted> {
    From(o.origin, o.events)
  }

  function From(origin: Origin, events: seq<NearEvent>): seq<Emitted> {
    seq(|events|, j requires 0 <= j < |events| => (events[j], origin))
  }

  predicate IsFt(e: Emitted) { e.0.Nep141? }

  predicate IsNft(e: Emitted) { e.0.Nep171? }

  lemma FilterOneMore<T>(s: seq<T>, x: T, p: T -> bool)
    ensures Filter(s + [x], p) == if p(x) then Filter(s, p) + [x] else Filter(s, p)
  {
    assert Front(s + [x]) == s;
  }

  lemma FromOneMore(done: seq<Emitted>, origin: Origin, events: seq<NearEvent>, j: nat)
    requires j < |events|
    ensures done + From(origin, events[..j + 1]) == done + From(origin, events[..j]) + [(events[j], origin)]
  {
    assert From(origin, events[..j + 1]) == From(origin, events[..j]) + [(events[j], origin)];
  }

  method CollectEvents(outcomes: seq<ShardOutcome>) returns (ft: seq<Emitted>, nft: seq<Emitted>)
    ensures ft == Filter(EventsOf(outcomes), IsFt)
    ensures nft == Filter(EventsOf(outcomes), IsNft)
  {
    ft, nft := [], [];
    for i := 0 to |outcomes|
      invariant ft == Filter(EventsOf(outcomes[..i]), IsFt)
      invariant nft == Filter(EventsOf(outcomes[..i]), IsNft)
    {
      FlatMapOneMore(outcomes, i, FromOutcome);
      var o := outcomes[i];
      ghost var done := EventsOf(outcomes[..i]);
      assert done + From(o.origin, []) == done;
      for j := 0 to |o.events|
        invariant ft == Filter(done + From(o.origin, o.events[..j]), IsFt)
        invariant nft == Filter(done + From(o.origin, o.events[..j]), IsNft)
      {
        var e := (o.events[j], o.origin);
        ghost var before := done + From(o.origin, o.events[..j]);
        FromOneMore(done, o.origin, o.events, j);
        FilterOneMore(before, e, IsFt);
        FilterOneMore(before, e, IsNft);
        match e.0 {
          case Nep141(_) => ft := ft + [e];
          case Nep171(_) => nft := nft + [e];
        }
      }
      assert o.events[..|o.events|] == o.events;
    }
    assert outcomes[..|outcomes|] == outcomes;
  }

  // ---- Composing -------------------------------------------------------------------------------

  function Extended(before: seq<Item>, origin: Origin, entries: seq<Entry>, timestamp: nat, shard: nat): seq<EventRow> {
    Numbered(before + At(origin, entries), timestamp, shard)
  }

  lemma PushOne(before: seq<Item>, origin: Origin, entries: seq<Entry>, j: nat, timestamp: nat, shard: nat)
    requires j < |entries|
    ensures var rows := Extended(before, origin, entries[..j], timestamp, shard);
            Extended(before, origin, entries[..j + 1], timestamp, shard)
            == rows + [EventRow(origin, timestamp, shard, |rows|, entries[j])]
  {
    assert before + At(origin, entries[..j + 1]) == before + At(origin, entries[..j]) + [Item(origin, entries[j])];
  }

  lemma PushNone(before: seq<Item>, origin: Origin, timestamp: nat, shard: nat)
    ensures Extended(before, origin, [], timestamp, shard) == Numbered(before, timestamp, shard)
  {
    assert before + At(origin, []) == before;
  }

  method PushFtMints(
    ghost before: seq<Item>, rows: seq<EventRow>, origin: Origin, mints: seq<FtMint>, timestamp: nat, shard: nat,
    escape: Escape)
    returns (more: seq<EventRow>)
    requires rows == Numbered(before, timestamp, shard)
    ensures more == Extended(before, origin, FtEntries(FtMints(mints), escape), timestamp, shard)
  {
    more := rows;
    PushNone(before, origin, timestamp, shard);
    ghost var entries := FtEntries(FtMints(mints), escape);
    for j := 0 to |mints|
      invariant more == Extended(before, origin, entries[..j], timestamp, shard)
    {
      PushOne(before, origin, entries, j, timestamp, shard);
      var m := mints[j];
      var entry := FtEntry(m.amount, Mint, "", escape(m.owner), escape(OrEmpty(m.memo)));
      more := more + [EventRow(origin, timestamp, shard, |more|, entry)];
    }
    assert entries[..|entries|] == entries;
  }

  method PushFtTransfers(
    ghost before: seq<Item>, rows: seq<EventRow>, origin: Origin, moves: seq<FtTransfer>, timestamp: nat, shard: nat,
    escape: Escape)
    returns (more: seq<EventRow>)
    requires rows == Numbered(before, timestamp, shard)
    ensures more == Extended(before, origin, FtEntries(FtTransfers(moves), escape), timestamp, shard)
  {
    more := rows;
    PushNone(before, origin, timestamp, shard);
    ghost var entries := FtEntries(FtTransfers(moves), escape);
    for j := 0 to |moves|
      invariant more == Extended(before, origin, entries[..j], timestamp, shard)
    {
      PushOne(before, origin, entries, j, timestamp, shard);
      var t := moves[j];
      var entry := FtEntry(t.amount, Kind.Transfer, escape(t.oldOwner), escape(t.newOwner), escape(OrEmpty(t.memo)));
      more := more + [EventRow(origin, timestamp, shard, |more|, entry)];
    }
    assert entries[..|entries|] == entries;
  }

  method PushFtBurns(
    ghost before: seq<Item>, rows: seq<EventRow>, origin: Origin, burns: seq<FtBurn>, timestamp: nat, shard: nat,
    escape: Escape)
    returns (more: seq<EventRow>)
    requires rows == Numbered(before, timestamp, shard)
    ensures more == Extended(before, origin, FtEntries(FtBurns(burns), escape), timestamp, shard)
  {
    more := rows;
    PushNone(before, origin, timestamp, shard);
    ghost var entries := FtEntries(FtBurns(burns), escape);
    for j := 0 to |burns|
      invariant more == Extended(before, origin, entries[..j], timestamp, shard)
    {
      PushOne(before, origin, entries, j, timestamp, shard);
      var b := burns[j];
      var entry := FtEntry(b.amount, Burn, escape(b.owner), "", escape(OrEmpty(b.memo)));
      more := more + [EventRow(origin, timestamp, shard, |more|, entry)];
    }
    assert entries[..|entries|] == entries;
  }

  method ComposeFtEvents(events: seq<Emitted>, timestamp: nat, shard: nat, escape: Escape) returns (rows: seq<EventRow>)
    requires forall e :: e in events ==> IsFt(e)
    ensures rows == Numbered(Items(events, escape), timestamp, shard)
  {
    rows := [];
    for i := 0 to |events|
      invariant rows == Numbered(Items(events[..i], escape), timestamp, shard)
    {
      var (event, origin) := events[i];
      assert events[i] in events;
      FlatMapOneMore(events, i, ItemsBy(escape));
      ghost var before := Items(events[..i], escape);
      match event.ft {
        case FtMints(mints) => rows := PushFtMints(before, rows, origin, mints, timestamp, shard, escape);
        case FtTransfers(moves) => rows := PushFtTransfers(before, rows, origin, moves, timestamp, shard, escape);
        case FtBurns(burns) => rows := PushFtBurns(before, rows, origin, burns, timestamp, shard, escape);
      }
    }
    assert events[..|events|] == events;
  }

  /** The innermost loop of the NFT rows: one row per token. */
  method PushTokens(
    ghost before: seq<Item>, ghost done: seq<Entry>, rows: seq<EventRow>, origin: Origin, tokens: seq<string>,
    kind: Kind, old_: string, new_: string, authorized: string, memo: string, timestamp: nat,
    shard: nat, escape: Escape)
    returns (more: seq<EventRow>)
    requires rows == Extended(before, origin, done, timestamp, shard)
    ensures more == Extended(before, origin, done + Tokens(tokens, kind, old_, new_, authorized, memo, escape),
              timestamp, shard)
  {
    more := rows;
    ghost var entries := done + Tokens(tokens, kind, old_, new_, authorized, memo, escape);
    assert entries[..|done|] == done;
    for j := 0 to |tokens|
      invariant more == Extended(before, origin, entries[..|done| + j], timestamp, shard)
    {
      PushOne(before, origin, entries, |done| + j, timestamp, shard);
      more := more + [EventRow(origin, timestamp, shard, |more|,
          NftEntry(escape(tokens[j]), kind, old_, new_, authorized, memo))];
    }
    assert entries[..|entries|] == entries;
  }

  method PushMints(
    ghost before: seq<Item>, rows: seq<EventRow>, origin: Origin, mints: seq<NftMint>, timestamp: nat, shard: nat,
    escape: Escape)
    returns (more: seq<EventRow>)
    requires rows == Numbered(before, timestamp, shard)
    ensures more == Extended(before, origin, FlatMap(mints, MintBy(escape)), timestamp, shard)
  {
    more := rows;
    PushNone(before, origin, timestamp, shard);
    for j := 0 to |mints|
      invariant more == Extended(before, origin, FlatMap(mints[..j], MintBy(escape)), timestamp, shard)
    {
      FlatMapOneMore(mints, j, MintBy(escape));
      var m := mints[j];
      more := PushTokens(before, FlatMap(mints[..j], MintBy(escape)), more, origin, m.tokens,
        Mint, "", escape(m.owner), "", escape(OrEmpty(m.memo)), timestamp, shard, escape);
    }
    assert mints[..|mints|] == mints;
  }

  method PushTransfers(
    ghost before: seq<Item>, rows: seq<EventRow>, origin: Origin, moves: seq<NftTransfer>, timestamp: nat, shard: nat,
    escape: Escape)
    returns (more: seq<EventRow>)
    requires rows == Numbered(before, timestamp, shard)
    ensures more == Extended(before, origin, FlatMap(moves, TransferBy(escape)), timestamp, shard)
  {
    more := rows;
    PushNone(before, origin, timestamp, shard);
    for j := 0 to |moves|
      invariant more == Extended(before, origin, FlatMap(moves[..j], TransferBy(escape)), timestamp, shard)
    {
      FlatMapOneMore(moves, j, TransferBy(escape));
      var t := moves[j];
      var authorized, memo := escape(OrEmpty(t.authorized)), escape(OrEmpty(t.memo));
      more := PushTokens(before, FlatMap(moves[..j], TransferBy(escape)), more, origin, t.tokens,
        Kind.Transfer, escape(t.oldOwner), escape(t.newOwner), authorized, memo, timestamp, shard, escape);
    }
    assert moves[..|moves|] == moves;
  }

  method PushBurns(
    ghost before: seq<Item>, rows: seq<EventRow>, origin: Origin, burns: seq<NftBurn>, timestamp: nat, shard: nat,
    escape: Escape)
    returns (more: seq<EventRow>)
    requires rows == Numbered(before, timestamp, shard)
    ensures more == Extended(before, origin, FlatMap(burns, BurnBy(escape)), timestamp, shard)
  {
    more := rows;
    PushNone(before, origin, timestamp, shard);
    for j := 0 to |burns|
      invariant more == Extended(before, origin, FlatMap(burns[..j], BurnBy(escape)), timestamp, shard)
    {
      FlatMapOneMore(burns, j, BurnBy(escape));
      var b := burns[j];
      var authorized, memo := escape(OrEmpty(b.authorized)), escape(OrEmpty(b.memo));
      more := PushTokens(before, FlatMap(burns[..j], BurnBy(escape)), more, origin, b.tokens,
        Burn, escape(b.owner), "", authorized, memo, timestamp, shard, escape);
    }
    assert burns[..|burns|] == burns;
  }

  method ComposeNftEvents(events: seq<Emitted>, timestamp: nat, shard: nat, escape: Escape)
      returns (rows: seq<EventRow>)
    requires forall e :: e in events ==> IsNft(e)
    ensures rows == Numbered(Items(events, escape), timestamp, shard)
  {
    rows := [];
    for i := 0 to |events|
      invariant rows == Numbered(Items(events[..i], escape), timestamp, shard)
    {
      var (event, origin) := events[i];
      assert events[i] in events;
      FlatMapOneMore(events, i, ItemsBy(escape));
      ghost var before := Items(events[..i], escape);
      match event.nft {
        case NftMints(mints) => rows := PushMints(before, rows, origin, mints, timestamp, shard, escape);
        case NftTransfers(moves) => rows := PushTransfers(before, rows, origin, moves, timestamp, shard, escape);
        case NftBurns(burns) => rows := PushBurns(before, rows, origin, burns, timestamp, shard, escape);
      }
    }
    assert events[..|events|] == events;
  }

  // ---- Where an entry ends up ------------------------------------------------------------------

  /** Item `j` of event `i` comes right after all items of earlier events and the event's first `j`,
      and the row's index is that position; for the composed rows, `by_` is ItemsBy(escape). */
  lemma EntryPosition(events: seq<Emitted>, by_: Emitted -> seq<Item>, i: nat, j: nat, timestamp: nat, shard: nat)
    requires i < |events| && j < |by_(events[i])|
    ensures var p, rows := |FlatMap(events[..i], by_)| + j, Numbered(FlatMap(events, by_), timestamp, shard);
            && p < |rows|
            && rows[p] == EventRow(by_(events[i])[j].origin, timestamp, shard, p, by_(events[i])[j].entry)
  {
    FlatMapPosition(events, by_, i, j);
  }

  /** The entries of an FT event, in order, with their columns. */
  lemma FtEntriesAre(e: FtEvent, escape: Escape, j: nat)
    ensures var entries := FtEntries(e, escape);
            match e
            case FtMints(mints) =>
              && |entries| == |mints|
              && (j < |mints| ==>
                    entries[j] == FtEntry(mints[j].amount, Mint, "", escape(mints[j].owner),
                        escape(OrEmpty(mints[j].memo))))
            case FtTransfers(moves) =>
              && |entries| == |moves|
              && (j < |moves| ==>
                    entries[j] == FtEntry(moves[j].amount, Kind.Transfer, escape(moves[j].oldOwner),
                                          escape(moves[j].newOwner), escape(OrEmpty(moves[j].memo))))
            case FtBurns(burns) =>
              && |entries| == |burns|
              && (j < |burns| ==>
                    entries[j] == FtEntry(burns[j].amount, Burn, escape(burns[j].owner), "",
                        escape(OrEmpty(burns[j].memo))))
  {
  }

  /** An absent memo or authorized account is stored as the empty text. */
  lemma AbsentIsEmpty(text: Option<string>)
    ensures text == None ==> OrEmpty(text) == ""
    ensures forall t :: text == Some(t) ==> OrEmpty(text) == t
  {
  }

  /** The items of an event are its entries, each with the event's origin. */
  lemma ItemsAre(e: Emitted, escape: Escape)
    ensures match e.0
            case Nep141(ft) => ItemsBy(escape)(e) == At(e.1, FtEntries(ft, escape))
            case Nep171(nft) => ItemsBy(escape)(e) == At(e.1, NftEntries(nft, escape))
  {
  }

  /** So the row of entry `j` of event `i` is at its position, which is its index, with the origin of the
      event; for the composed rows `by_` is ItemsBy(escape), and `entries` are those of ItemsAre. */
  lemma RowPosition(
    events: seq<Emitted>, by_: Emitted -> seq<Item>, i: nat, entries: seq<Entry>, j: nat, timestamp: nat, shard: nat)
    requires i < |events| && by_(events[i]) == At(events[i].1, entries) && j < |entries|
    ensures var p, rows := |FlatMap(events[..i], by_)| + j, Numbered(FlatMap(events, by_), timestamp, shard);
            p < |rows| && rows[p] == EventRow(events[i].1, timestamp, shard, p, entries[j])
  {
    EntryPosition(events, by_, i, j, timestamp, shard);
  }

  /** Event `j` of outcome `i` comes right after all events of earlier outcomes and its first `j`. */
  lemma EventPosition(outcomes: seq<ShardOutcome>, i: nat, j: nat)
    requires i < |outcomes| && j < |outcomes[i].events|
    ensures var p := |EventsOf(outcomes[..i])| + j;
            p < |EventsOf(outcomes)| && EventsOf(outcomes)[p] == (outcomes[i].events[j], outcomes[i].origin)
  {
    FlatMapPosition(outcomes, FromOutcome, i, j);
  }

  /** No event comes from nowhere. */
  lemma EventHasASource(outcomes: seq<ShardOutcome>, p: nat) returns (i: nat, j: nat)
    requires p < |EventsOf(outcomes)|
    ensures i < |outcomes| && j < |outcomes[i].events| && p == |EventsOf(outcomes[..i])| + j
  {
    i, j := FlatMapSource(outcomes, FromOutcome, p);
  }

  /** Token `k` of mint `j` comes right after the tokens of earlier mints and the first `k`. */
  lemma TokenPosition(mints: seq<NftMint>, j: nat, k: nat, escape: Escape)
    requires j < |mints| && k < |mints[j].tokens|
    ensures var p, entries := |FlatMap(mints[..j], MintBy(escape))| + k, NftEntries(NftMints(mints), escape);
            var m := mints[j];
            && p < |entries|
            && entries[p] == NftEntry(escape(m.tokens[k]), Mint, "", escape(m.owner), "", escape(OrEmpty(m.memo)))
  {
    FlatMapPosition(mints, MintBy(escape), j, k);
  }

  lemma TransferTokenPosition(moves: seq<NftTransfer>, j: nat, k: nat, escape: Escape)
    requires j < |moves| && k < |moves[j].tokens|
    ensures var p, entries := |FlatMap(moves[..j], TransferBy(escape))| + k, NftEntries(NftTransfers(moves), escape);
            var t := moves[j];
            && p < |entries|
            && entries[p] == NftEntry(escape(t.tokens[k]), Kind.Transfer, escape(t.oldOwner), escape(t.newOwner),
                                      escape(OrEmpty(t.authorized)), escape(OrEmpty(t.memo)))
  {
    FlatMapPosition(moves, TransferBy(escape), j, k);
  }

  lemma BurnTokenPosition(burns: seq<NftBurn>, j: nat, k: nat, escape: Escape)
    requires j < |burns| && k < |burns[j].tokens|
    ensures var p, entries := |FlatMap(burns[..j], BurnBy(escape))| + k, NftEntries(NftBurns(burns), escape);
            var b := burns[j];
            && p < |entries|
            && entries[p] == NftEntry(escape(b.tokens[k]), Burn, escape(b.owner), "",
                                      escape(OrEmpty(b.authorized)), escape(OrEmpty(b.memo)))
  {
    FlatMapPosition(burns, BurnBy(escape), j, k);
  }

  /** What the tables' columns promise: a mint has no old owner and no authorized account, a burn no
      new owner. */
  lemma EmptyByKind(e: NearEvent, entry: Entry, escape: Escape)
    requires entry in Entries(e, escape)
    ensures entry.kind == Mint ==> entry.oldOwner == "" && (entry.NftEntry? ==> entry.authorized == "")
    ensures entry.kind == Burn ==> entry.newOwner == ""
    ensures entry.FtEntry? <==> e.Nep141?
  {
    if e.Nep171? {
      match e.nft
      case NftMints(mints) => FlatMapHolds(mints, MintBy(escape), entry);
      case NftTransfers(moves) => FlatMapHolds(moves, TransferBy(escape), entry);
      case NftBurns(burns) => FlatMapHolds(burns, BurnBy(escape), entry);
    }
  }

  /** No row comes from nowhere: each is an entry of some event, at that entry's position. */
  lemma RowHasASource(events: seq<Emitted>, p: nat, escape: Escape) returns (i: nat, j: nat)
    requires p < |Items(events, escape)|
    ensures i < |events| && j < |Entries(events[i].0, escape)|
    ensures p == |Items(events[..i], escape)| + j
  {
    i, j := FlatMapSource(events, ItemsBy(escape), p);
  }

  /** The rows of one kind for the outcomes of a shard. */
  function ShardRows(outcomes: seq<ShardOutcome>, kind: Emitted -> bool, timestamp: nat, shard: nat,
      escape: Escape): seq<EventRow> {
    Numbered(Items(Filter(EventsOf(outcomes), kind), escape), timestamp, shard)
  }

  /** The rows of later outcomes come after those of earlier ones and do not change them. */
  lemma EarlierOutcomesFirst(outcomes: seq<ShardOutcome>, i: nat, kind: Emitted -> bool, timestamp: nat, shard: nat,
      escape: Escape)
    requires i <= |outcomes|
    ensures ShardRows(outcomes[..i], kind, timestamp, shard, escape) <=
              ShardRows(outcomes, kind, timestamp, shard, escape)
  {
    var first, rest := outcomes[..i], outcomes[i..];
    assert outcomes == first + rest;
    FlatMapConcat(first, rest, FromOutcome);
    FilterConcat(EventsOf(first), EventsOf(rest), kind);
    FlatMapConcat(Filter(EventsOf(first), kind), Filter(EventsOf(rest), kind), ItemsBy(escape));
  }
}
