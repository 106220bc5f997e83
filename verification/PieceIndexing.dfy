/**
 * The index of plotted pieces: built from the plotted sectors at start-up, maintained when a sector
 * is plotted or replotted, and asked when a piece is not in the cache.
 *
 * `ReadersAndPieces` is not part of the repository. It is taken to be a multimap from pieces to
 * their places, kept as the multiset of its entries: `AddSector` adds the entries of a sector,
 * `DeleteSector` removes each of them once if it is there, and a lookup picks some entry.
 */
module PieceIndexing {
  import opened Outcomes

  type PieceIndex = nat

  /** A sector as the farm reports it: its number and the pieces it holds, by offset. */
  datatype PlottedSector = PlottedSector(sectorIndex: nat, pieceIndexes: seq<PieceIndex>)

  /** One place of one piece. */
  datatype Entry = Entry(piece: PieceIndex, farm: nat, sector: nat, offset: nat)

  datatype BuildError = TooManyFarms

  ghost predicate Holds(farm: nat, s: PlottedSector, e: Entry) {
    e.farm == farm && e.sector == s.sectorIndex && e.offset < |s.pieceIndexes| && s.pieceIndexes[e.offset] == e.piece
  }

  /** The entries of the first `n` pieces of a sector. */
  function EntriesUpTo(farm: nat, s: PlottedSector, n: nat): multiset<Entry>
    requires n <= |s.pieceIndexes|
  {
    if n == 0 then multiset{}
    else EntriesUpTo(farm, s, n - 1) + multiset{Entry(s.pieceIndexes[n - 1], farm, s.sectorIndex, n - 1)}
  }

  function SectorEntries(farm: nat, s: PlottedSector): multiset<Entry> {
    EntriesUpTo(farm, s, |s.pieceIndexes|)
  }

  lemma {:induction false} EntriesCount(farm: nat, s: PlottedSector, n: nat, e: Entry)
    requires n <= |s.pieceIndexes|
    ensures EntriesUpTo(farm, s, n)[e] == if Holds(farm, s, e) && e.offset < n then 1 else 0
  {
    if n > 0 {
      EntriesCount(farm, s, n - 1, e);
    }
  }

  /** A sector has one entry for each of its offsets, and no others. */
  lemma SectorEntriesCount(farm: nat, s: PlottedSector, e: Entry)
    ensures SectorEntries(farm, s)[e] == if Holds(farm, s, e) then 1 else 0
  {
    EntriesCount(farm, s, |s.pieceIndexes|, e);
  }

  class ReadersAndPieces {
    var entries: multiset<Entry>

    constructor ()
      ensures entries == multiset{}
    {
      entries := multiset{};
    }

    method AddSector(farm: nat, s: PlottedSector)
      modifies this
      ensures entries == old(entries) + SectorEntries(farm, s)
    {
      entries := entries + SectorEntries(farm, s);
    }

    method DeleteSector(farm: nat, s: PlottedSector)
      modifies this
      ensures entries == old(entries) - SectorEntries(farm, s)
    {
      entries := entries - SectorEntries(farm, s);
    }
  }

  // ---------------------------------------------------------------------------------------
  // Start-up
  // ---------------------------------------------------------------------------------------

  type SectorRead = Result<PlottedSector, ()>

  /** The entries of the readable ones among the first sectors of a farm. */
  ghost function FarmEntries(farm: nat, sectors: seq<SectorRead>): multiset<Entry> {
    if sectors == [] then multiset{}
    else FarmEntries(farm, sectors[..|sectors| - 1])
         + match sectors[|sectors| - 1] case Ok(s) => SectorEntries(farm, s) case Err(_) => multiset{}
  }

  ghost function AllEntries(farms: seq<seq<SectorRead>>): multiset<Entry> {
    if farms == [] then multiset{}
    else AllEntries(farms[..|farms| - 1]) + FarmEntries(|farms| - 1, farms[|farms| - 1])
  }

  /** Farm indexes must fit a byte. */
  const MAX_FARMS: nat := 256

  predicate FitsByte(farm: nat) {
    farm <= 0xFF
  }

  /** The inner loop: the readable sectors of one farm are added, unreadable ones skipped. */
  method AddFarm(readersAndPieces: ReadersAndPieces, farm: nat, sectors: seq<SectorRead>)
    modifies readersAndPieces
    ensures readersAndPieces.entries == old(readersAndPieces.entries) + FarmEntries(farm, sectors)
  {
    var i := 0;
    while i < |sectors|
      invariant i <= |sectors|
      invariant readersAndPieces.entries == old(readersAndPieces.entries) + FarmEntries(farm, sectors[..i])
    {
      if sectors[i].Ok? {
        readersAndPieces.AddSector(farm, sectors[i].value);
      }
      i := i + 1;
      assert sectors[..i][..i - 1] == sectors[..i - 1];
    }
    assert sectors[..i] == sectors;
  }

  /** `create_readers_and_pieces`: a 257th farm is an error. */
  method CreateReadersAndPieces(farms: seq<seq<SectorRead>>) returns (r: Result<ReadersAndPieces, BuildError>)
    ensures r.Ok? <==> forall farm :: 0 <= farm < |farms| ==> FitsByte(farm)
    ensures r.Ok? ==> fresh(r.value) && r.value.entries == AllEntries(farms)
  {
    var readersAndPieces := new ReadersAndPieces();
    var farm := 0;
    while farm < |farms|
      invariant farm <= |farms| && farm <= MAX_FARMS
      invariant readersAndPieces.entries == AllEntries(farms[..farm])
    {
      if farm >= MAX_FARMS {
        assert !FitsByte(farm);
        return Err(TooManyFarms);
      }
      AddFarm(readersAndPieces, farm, farms[farm]);
      farm := farm + 1;
      assert farms[..farm][..farm - 1] == farms[..farm - 1];
    }
    assert farms[..farm] == farms;
    r := Ok(readersAndPieces);
  }

  /** The sectors that the farms have on disk and that can be served, by farm and sector number. */
  type Plotted = map<(nat, nat), seq<PieceIndex>>

  ghost predicate OnDisk(plotted: Plotted, e: Entry) {
    && (e.farm, e.sector) in plotted
    && e.offset < |plotted[(e.farm, e.sector)]|
    && plotted[(e.farm, e.sector)][e.offset] == e.piece
  }

  /** The index has each place of each plotted piece once, and nothing else. */
  ghost predicate Agrees(entries: multiset<Entry>, plotted: Plotted) {
    forall e :: entries[e] == if OnDisk(plotted, e) then 1 else 0
  }

  /** The readable sectors of a farm, all of them with numbers of their own. */
  ghost function FarmPlotted(farm: nat, sectors: seq<SectorRead>): Plotted {
    if sectors == [] then map[]
    else
      var before := FarmPlotted(farm, sectors[..|sectors| - 1]);
      match sectors[|sectors| - 1]
      case Ok(s) => before[(farm, s.sectorIndex) := s.pieceIndexes]
      case Err(_) => before
  }

  ghost function AllPlotted(farms: seq<seq<SectorRead>>): Plotted {
    if farms == [] then map[]
    else AllPlotted(farms[..|farms| - 1]) + FarmPlotted(|farms| - 1, farms[|farms| - 1])
  }

  ghost predicate DistinctSectors(sectors: seq<SectorRead>) {
    forall i, j :: 0 <= i < j < |sectors| && sectors[i].Ok? && sectors[j].Ok? ==>
      sectors[i].value.sectorIndex != sectors[j].value.sectorIndex
  }

  lemma {:induction false} FarmKeys(farm: nat, sectors: seq<SectorRead>)
    ensures forall k :: k in FarmPlotted(farm, sectors) ==>
      k.0 == farm && exists i :: 0 <= i < |sectors| && sectors[i].Ok? && sectors[i].value.sectorIndex == k.1
  {
    if sectors != [] {
      FarmKeys(farm, sectors[..|sectors| - 1]);
      forall k | k in FarmPlotted(farm, sectors)
        ensures k.0 == farm && exists i :: 0 <= i < |sectors| && sectors[i].Ok? && sectors[i].value.sectorIndex == k.1
      {
        if k in FarmPlotted(farm, sectors[..|sectors| - 1]) {
          var i :| 0 <= i < |sectors| - 1 && sectors[..|sectors| - 1][i].Ok?
                   && sectors[..|sectors| - 1][i].value.sectorIndex == k.1;
          assert sectors[i].Ok? && sectors[i].value.sectorIndex == k.1;
        }
      }
    }
  }

  /** Adding a sector that was not there. */
  lemma AddingAgrees(entries: multiset<Entry>, plotted: Plotted, farm: nat, s: PlottedSector)
    requires Agrees(entries, plotted) && (farm, s.sectorIndex) !in plotted
    ensures Agrees(entries + SectorEntries(farm, s), plotted[(farm, s.sectorIndex) := s.pieceIndexes])
  {
    var plotted' := plotted[(farm, s.sectorIndex) := s.pieceIndexes];
    forall e ensures (entries + SectorEntries(farm, s))[e] == if OnDisk(plotted', e) then 1 else 0 {
      SectorEntriesCount(farm, s, e);
      if (e.farm, e.sector) != (farm, s.sectorIndex) {
        assert OnDisk(plotted', e) <==> OnDisk(plotted, e);
      }
    }
  }

  lemma {:induction false} FarmAgrees(farm: nat, sectors: seq<SectorRead>)
    requires DistinctSectors(sectors)
    ensures Agrees(FarmEntries(farm, sectors), FarmPlotted(farm, sectors))
  {
    if sectors != [] {
      var before := sectors[..|sectors| - 1];
      assert DistinctSectors(before) by {
        assert forall i :: 0 <= i < |before| ==> before[i] == sectors[i];
      }
      FarmAgrees(farm, before);
      match sectors[|sectors| - 1] {
        case Ok(s) =>
          FarmKeys(farm, before);
          assert (farm, s.sectorIndex) !in FarmPlotted(farm, before) by {
            assert forall i :: 0 <= i < |before| ==> before[i] == sectors[i];
          }
          AddingAgrees(FarmEntries(farm, before), FarmPlotted(farm, before), farm, s);
        case Err(_) =>
          assert FarmEntries(farm, sectors) == FarmEntries(farm, before);
      }
    }
  }

  lemma {:induction false} PlottedKeys(farms: seq<seq<SectorRead>>)
    ensures forall k :: k in AllPlotted(farms) ==> k.0 < |farms|
  {
    if farms != [] {
      PlottedKeys(farms[..|farms| - 1]);
      FarmKeys(|farms| - 1, farms[|farms| - 1]);
    }
  }

  /** After start-up the index agrees with the readable sectors of all farms. */
  lemma {:induction false} StartUpAgrees(farms: seq<seq<SectorRead>>)
    requires forall i :: 0 <= i < |farms| ==> DistinctSectors(farms[i])
    ensures Agrees(AllEntries(farms), AllPlotted(farms))
  {
    if farms != [] {
      var before, last := farms[..|farms| - 1], |farms| - 1;
      assert forall i :: 0 <= i < |before| ==> before[i] == farms[i];
      StartUpAgrees(before);
      FarmAgrees(last, farms[last]);
      PlottedKeys(before);
      FarmKeys(last, farms[last]);
      forall e ensures AllEntries(farms)[e] == if OnDisk(AllPlotted(farms), e) then 1 else 0 {
        if e.farm == last {
          assert !OnDisk(AllPlotted(before), e);
          assert OnDisk(AllPlotted(farms), e) <==> OnDisk(FarmPlotted(last, farms[last]), e);
        } else {
          assert !OnDisk(FarmPlotted(last, farms[last]), e);
          assert OnDisk(AllPlotted(farms), e) <==> OnDisk(AllPlotted(before), e);
        }
      }
    }
  }

  /** Sector `j` of farm `e.farm` could be read, and holds the piece of `e` at the offset of `e`. */
  ghost predicate HeldBy(farms: seq<seq<SectorRead>>, e: Entry, j: nat) {
    && e.farm < |farms| && j < |farms[e.farm]|
    && farms[e.farm][j].Ok? && Holds(e.farm, farms[e.farm][j].value, e)
  }

  lemma {:induction false} FarmOnDisk(farm: nat, sectors: seq<SectorRead>, e: Entry)
    requires DistinctSectors(sectors)
    ensures OnDisk(FarmPlotted(farm, sectors), e) <==>
            exists j :: 0 <= j < |sectors| && sectors[j].Ok? && Holds(farm, sectors[j].value, e)
  {
    if sectors != [] {
      var last := |sectors| - 1;
      var before := sectors[..last];
      assert forall i :: 0 <= i < last ==> before[i] == sectors[i];
      FarmOnDisk(farm, before, e);
      FarmKeys(farm, before);
    }
  }

  lemma {:induction false} AllOnDisk(farms: seq<seq<SectorRead>>, e: Entry)
    requires forall i :: 0 <= i < |farms| ==> DistinctSectors(farms[i])
    ensures OnDisk(AllPlotted(farms), e) <==> exists j :: HeldBy(farms, e, j)
  {
    if farms != [] {
      var last := |farms| - 1;
      var before := farms[..last];
      assert forall i :: 0 <= i < last ==> before[i] == farms[i];
      AllOnDisk(before, e);
      FarmOnDisk(last, farms[last], e);
      PlottedKeys(before);
      FarmKeys(last, farms[last]);
      if e.farm == last {
        assert forall j: nat :: HeldBy(farms, e, j) <==>
                 j < |farms[last]| && farms[last][j].Ok? && Holds(last, farms[last][j].value, e);
      } else {
        assert forall j: nat :: HeldBy(farms, e, j) <==> HeldBy(before, e, j);
      }
    }
  }

  /**
   * After start-up the index has exactly the places of the pieces in the sectors that could be
   * read, each of them once.
   */
  lemma StartUpIndexIsExact(farms: seq<seq<SectorRead>>, e: Entry)
    requires forall i :: 0 <= i < |farms| ==> DistinctSectors(farms[i])
    ensures AllEntries(farms)[e] == if exists j :: HeldBy(farms, e, j) then 1 else 0
  {
    StartUpAgrees(farms);
    AllOnDisk(farms, e);
  }

  // ---------------------------------------------------------------------------------------
  // Plotting and replotting
  // ---------------------------------------------------------------------------------------

  /** The slot shared with the node; null until the index is published. */
  class ReadersSlot {
    var value: ReadersAndPieces?

    constructor ()
      ensures value == null
    {
      value := null;
    }
  }

  function Reported(previous: Option<PlottedSector>, farm: nat): multiset<Entry> {
    match previous case Some(s) => SectorEntries(farm, s) case None => multiset{}
  }

  function Replotted(
      entries: multiset<Entry>, farm: nat, previous: Option<PlottedSector>, s: PlottedSector): multiset<Entry>
  {
    entries - Reported(previous, farm) + SectorEntries(farm, s)
  }

  /** The preconditions are the two `expect`s of the source. */
  method HandlerOnSectorPlotted(s: PlottedSector, maybeOld: Option<PlottedSector>, farm: nat, slot: ReadersSlot)
    requires FitsByte(farm)
    requires slot.value != null
    modifies slot.value
    ensures slot.value.entries == Replotted(old(slot.value.entries), farm, maybeOld, s)
  {
    var readersAndPieces := slot.value;
    if maybeOld.Some? {
      readersAndPieces.DeleteSector(farm, maybeOld.value);
    }
    readersAndPieces.AddSector(farm, s);
  }

  function PiecesOf(s: Option<PlottedSector>): seq<PieceIndex> {
    match s case Some(s) => s.pieceIndexes case None => []
  }

  /** The reported old contents cover what is known of the sector; unknown sectors need no report. */
  predicate ReportCovers(plotted: Plotted, farm: nat, previous: Option<PlottedSector>, sector: nat) {
    (farm, sector) in plotted ==> plotted[(farm, sector)] <= PiecesOf(previous)
  }

  lemma ReportedCount(previous: Option<PlottedSector>, farm: nat, sector: nat, e: Entry)
    requires previous.Some? ==> previous.value.sectorIndex == sector
    ensures Reported(previous, farm)[e] ==
            if && e.farm == farm && e.sector == sector
               && e.offset < |PiecesOf(previous)| && PiecesOf(previous)[e.offset] == e.piece
            then 1 else 0
  {
    if previous.Some? {
      SectorEntriesCount(farm, previous.value, e);
    }
  }

  lemma ReplotCount(
      entries: multiset<Entry>, plotted: Plotted, farm: nat, previous: Option<PlottedSector>, s: PlottedSector,
      e: Entry)
    requires Agrees(entries, plotted)
    requires previous.Some? ==> previous.value.sectorIndex == s.sectorIndex
    ensures Replotted(entries, farm, previous, s)[e] ==
            (if OnDisk(plotted, e) && Reported(previous, farm)[e] == 0 then 1 else 0)
            + if Holds(farm, s, e) then 1 else 0
  {
    SectorEntriesCount(farm, s, e);
    ReportedCount(previous, farm, s.sectorIndex, e);
  }

  /**
   * A replot keeps the index in agreement with the disk exactly when the old contents that the
   * farm reports cover those that were indexed. Otherwise stale places stay behind.
   */
  lemma ReplotAgreesIff(
      entries: multiset<Entry>, plotted: Plotted, farm: nat, previous: Option<PlottedSector>, s: PlottedSector)
    requires Agrees(entries, plotted)
    requires previous.Some? ==> previous.value.sectorIndex == s.sectorIndex
    ensures Agrees(Replotted(entries, farm, previous, s), plotted[(farm, s.sectorIndex) := s.pieceIndexes])
            <==> ReportCovers(plotted, farm, previous, s.sectorIndex)
  {
    var key := (farm, s.sectorIndex);
    var plotted' := plotted[key := s.pieceIndexes];
    var entries' := Replotted(entries, farm, previous, s);
    if ReportCovers(plotted, farm, previous, s.sectorIndex) {
      forall e ensures entries'[e] == if OnDisk(plotted', e) then 1 else 0 {
        ReplotCount(entries, plotted, farm, previous, s, e);
        ReportedCount(previous, farm, s.sectorIndex, e);
        if (e.farm, e.sector) != key {
          assert OnDisk(plotted', e) <==> OnDisk(plotted, e);
        } else {
          assert OnDisk(plotted', e) <==> Holds(farm, s, e);
          assert OnDisk(plotted, e) ==> Reported(previous, farm)[e] == 1;
        }
      }
    } else {
      var pieces := plotted[key];
      var k := FirstUncovered(pieces, PiecesOf(previous));
      var e := Entry(pieces[k], farm, s.sectorIndex, k);
      ReplotCount(entries, plotted, farm, previous, s, e);
      ReportedCount(previous, farm, s.sectorIndex, e);
      assert OnDisk(plotted, e) && Reported(previous, farm)[e] == 0;
      assert OnDisk(plotted', e) <==> Holds(farm, s, e);
      assert entries'[e] == 1 + if OnDisk(plotted', e) then 1 else 0;
    }
  }

  lemma FirstUncovered(pieces: seq<PieceIndex>, cover: seq<PieceIndex>) returns (k: nat)
    requires !(pieces <= cover)
    ensures k < |pieces| && (k >= |cover| || cover[k] != pieces[k])
  {
    if |pieces| > |cover| {
      k := |cover|;
    } else {
      k :| 0 <= k < |pieces| && cover[k] != pieces[k];
    }
  }

  datatype Event = Event(farm: nat, previous: Option<PlottedSector>, sector: PlottedSector)

  ghost function PlottedAfter(plotted: Plotted, events: seq<Event>): Plotted {
    if events == [] then plotted
    else
      var e := events[|events| - 1];
      PlottedAfter(plotted, events[..|events| - 1])[(e.farm, e.sector.sectorIndex) := e.sector.pieceIndexes]
  }

  ghost function EntriesAfter(entries: multiset<Entry>, events: seq<Event>): multiset<Entry> {
    if events == [] then entries
    else
      var e := events[|events| - 1];
      Replotted(EntriesAfter(entries, events[..|events| - 1]), e.farm, e.previous, e.sector)
  }

  /** Every report names the sector it is about and covers what was on disk when it was made. */
  ghost predicate ReportsAreFaithful(plotted: Plotted, events: seq<Event>) {
    forall i :: 0 <= i < |events| ==>
      && (events[i].previous.Some? ==> events[i].previous.value.sectorIndex == events[i].sector.sectorIndex)
      && ReportCovers(
           PlottedAfter(plotted, events[..i]), events[i].farm, events[i].previous, events[i].sector.sectorIndex)
  }

  /** Agreement survives any sequence of sector events, each handled under the lock. */
  lemma {:induction false} EventsKeepAgreement(entries: multiset<Entry>, plotted: Plotted, events: seq<Event>)
    requires Agrees(entries, plotted)
    requires ReportsAreFaithful(plotted, events)
    ensures Agrees(EntriesAfter(entries, events), PlottedAfter(plotted, events))
  {
    if events != [] {
      var before, e := events[..|events| - 1], events[|events| - 1];
      assert ReportsAreFaithful(plotted, before) by {
        forall i | 0 <= i < |before| ensures before[i] == events[i] && before[..i] == events[..i] {}
      }
      EventsKeepAgreement(entries, plotted, before);
      ReplotAgreesIff(EntriesAfter(entries, before), PlottedAfter(plotted, before), e.farm, e.previous, e.sector);
    }
  }

  // ---------------------------------------------------------------------------------------
  // Lookup
  // ---------------------------------------------------------------------------------------

  type Piece = seq<bv8>

  /** The place that the index offers for a piece. */
  ghost function ReadPiece(entries: multiset<Entry>, piece: PieceIndex): (place: Option<Entry>)
    ensures place.Some? ==> place.value in entries && place.value.piece == piece
    ensures place.None? ==> forall e :: e in entries ==> e.piece != piece
  {
    if exists e :: e in entries && e.piece == piece
    then var e :| e in entries && e.piece == piece; Some(e)
    else None
  }

  /** What the farmer can be asked with: a dropped cell, an empty slot, or an index. */
  datatype IndexView = CellDropped | SlotEmpty | Filled(entries: multiset<Entry>)

  /**
   * The farmer's lookup: the cache first, then the index. `cached` is the cache's answer, `reader`
   * what reading a place gives.
   */
  ghost function GetPieceByIndex(
      piece: PieceIndex, cached: Option<Piece>, index: IndexView, reader: Entry -> Option<Piece>): Option<Piece>
  {
    if cached.Some? then cached
    else
      match index
      case CellDropped => None
      case SlotEmpty => None
      case Filled(entries) =>
        match ReadPiece(entries, piece)
        case None => None
        case Some(place) => reader(place)
  }

  /** The node's handler: no answer at all while the cache slot is empty. */
  ghost function NodeGetPieceByIndex(
      piece: PieceIndex, cache: Option<PieceIndex -> Option<Piece>>, index: IndexView, reader: Entry -> Option<Piece>)
    : Option<Option<Piece>>
  {
    match cache
    case None => None
    case Some(getPiece) => Some(GetPieceByIndex(piece, getPiece(piece), index, reader))
  }

  /**
   * With an index that agrees with the disk, a lookup that misses the cache reads a place where the
   * piece is plotted; it has no place to read exactly when no plotted sector holds the piece. So
   * when every plotted place can be read, the piece is found exactly when some sector holds it.
   */
  lemma MissFindsPlottedPieces(
      piece: PieceIndex, cache: PieceIndex -> Option<Piece>, entries: multiset<Entry>, plotted: Plotted,
      reader: Entry -> Option<Piece>)
    requires cache(piece).None?
    requires Agrees(entries, plotted)
    ensures match NodeGetPieceByIndex(piece, Some(cache), Filled(entries), reader)
            case None => false
            case Some(found) =>
              if exists e :: OnDisk(plotted, e) && e.piece == piece
              then exists e :: OnDisk(plotted, e) && e.piece == piece && found == reader(e)
              else found == None
    ensures (forall e :: OnDisk(plotted, e) ==> reader(e).Some?) ==>
              (NodeGetPieceByIndex(piece, Some(cache), Filled(entries), reader).value.Some? <==>
               exists e :: OnDisk(plotted, e) && e.piece == piece)
  {
    assert forall e :: e in entries <==> OnDisk(plotted, e) by {
      forall e ensures e in entries <==> OnDisk(plotted, e) {
        assert entries[e] == if OnDisk(plotted, e) then 1 else 0;
      }
    }
  }
}
