/**
 Whom a scan recognizes, said of the bytes in memory alone: a player, a member of the staff, a manager or a club
 is found exactly where memory holds a vtable of the game, a class behind it, a valid uid and plausible values.
 */
module Recognition {
  import opened Wrappers
  import opened BlockReads
  import opened ScanModel
  import opened ScanLedger
  import opened ScanWalk
  import opened ScanSpec
  import opened PersonScanner
  import opened ProcessMemory
  import opened ScannedMemory

  // ---------------------------------------------------------------- what memory holds

  predicate LiesIn(bounds: ModuleBounds, address: int) { bounds.baseAddress <= address < bounds.endAddress }

  predicate IsGameVtable(ctx: Context, vtable: int) {
    LiesIn(ctx.gameAssembly, vtable) || (ctx.gamePlugin.Some? && LiesIn(ctx.gamePlugin.value, vtable))
  }

  /** The pointer below the vtable is not null, and four bytes behind where it points stands the offset, not 0. */
  ghost predicate LeadsToClass(reader: Reader, vtable: Word64, classOffset: int) {
    && classOffset != 0 && vtable >= 8
    && exists meta: Word64 ::
         && reader.readUInt64(vtable - 8) == Some(meta) && 0 < meta && meta + 4 < 0x1_0000_0000_0000_0000
         && reader.readInt32(meta + 4) == Some(classOffset)
  }

  /** A half-word at this offset can be read and is an ability. */
  ghost predicate HasAbility(reader: Reader, block: int, offset: int, value: int) {
    && 0 <= block && 0 <= offset && block + offset < 0x1_0000_0000_0000_0000
    && var field: Word64 := block + offset;
       reader.readUInt16(field).Some? && reader.readUInt16(field).value == value && 1 <= value <= 200
  }

  /** The byte that tells a player's gender. */
  ghost predicate HasGenderByte(ctx: Context, address: Word64, raw: Byte) {
    && 0 <= ctx.layout.genderOffset && address + ctx.layout.genderOffset < 0x1_0000_0000_0000_0000
    && var field: Word64 := address + ctx.layout.genderOffset;
       ctx.reader.readByte(field) == Some(raw)
  }

  /** Men are those who are not known to be women; women are those who are. */
  ghost predicate IsWanted(ctx: Context, address: Word64) {
    match ctx.scope
    case Men => forall raw :: HasGenderByte(ctx, address, raw) ==> !ctx.layout.isFemale(raw)
    case Women => exists raw :: HasGenderByte(ctx, address, raw) && ctx.layout.isFemale(raw)
    case Both => true
  }

  /** Room for a vtable with the word behind it, and for the uid. */
  ghost predicate HasRoom(layout: Layout, address: int, end: int) {
    address + 16 <= end && address + layout.objectUidOffset + 4 <= end
  }

  /** The bytes at the address begin an object of this class with this uid. */
  ghost predicate HoldsObject(ctx: Context, image: Image, address: Word64, classOffset: int, uid: Word32) {
    && 0 <= ctx.layout.objectUidOffset
    && Mapped(image, address, 8) && Mapped(image, address + ctx.layout.objectUidOffset, 4)
    && IsGameVtable(ctx, U64At(image, address)) && LeadsToClass(ctx.reader, U64At(image, address), classOffset)
    && U32At(image, address + ctx.layout.objectUidOffset) == uid && uid != 0 && uid != 0xFFFF_FFFF
  }

  predicate IsPlayerClass(layout: Layout, classOffset: int) { classOffset in layout.playerClassOffsets }

  predicate IsStaffClass(layout: Layout, classOffset: int) {
    classOffset in layout.staffClassOffsets && classOffset !in layout.playerClassOffsets
  }

  predicate IsManagerClass(layout: Layout, classOffset: int) {
    && classOffset in layout.humanManagerClassOffsets
    && classOffset !in layout.playerClassOffsets && classOffset !in layout.staffClassOffsets
  }

  /** The person's block begins as far below the object as the class says. */
  ghost predicate HasBlock(c: PersonCandidate) {
    0 <= c.classOffset <= c.objectAddress && c.blockAddress == c.objectAddress - c.classOffset
  }

  ghost predicate IsPlayer(ctx: Context, c: PersonCandidate) {
    && c.facet == Player && IsPlayerClass(ctx.layout, c.classOffset) && HasBlock(c)
    && HasAbility(ctx.reader, c.blockAddress, ctx.layout.currentAbilityOffset, c.ca)
    && HasAbility(ctx.reader, c.blockAddress, ctx.layout.potentialAbilityOffset, c.pa)
    && IsWanted(ctx, c.objectAddress)
  }

  ghost predicate IsStaff(ctx: Context, c: PersonCandidate) {
    && (|| (c.facet == Staff && IsStaffClass(ctx.layout, c.classOffset))
        || (c.facet == HumanManager && IsManagerClass(ctx.layout, c.classOffset)))
    && HasBlock(c)
    && HasAbility(ctx.reader, c.blockAddress, ctx.layout.staffCurrentAbilityOffset, c.ca)
    && HasAbility(ctx.reader, c.blockAddress, ctx.layout.staffPotentialAbilityOffset, c.pa)
  }

  ghost predicate HasPointer(reader: Reader, address: Word64, offset: int, value: Word64) {
    && 0 <= offset && address + offset < 0x1_0000_0000_0000_0000
    && var field: Word64 := address + offset;
       reader.readUInt64(field) == Some(value)
  }

  /** A list of at most 24 teams, and a name. */
  ghost predicate IsClub(ctx: Context, club: ClubCandidate) {
    && ctx.reader.clubName(club.address) == Some(club.name)
    && exists begin: Word64, end: Word64 ::
         && HasPointer(ctx.reader, club.address, ctx.layout.clubTeamsBeginOffset, begin)
         && HasPointer(ctx.reader, club.address, ctx.layout.clubTeamsEndOffset, end)
         && 0 < begin < end <= begin + 8 * 24 && begin % 8 == 0 && end % 8 == 0
  }

  predicate IsOtherClass(layout: Layout, classOffset: int) {
    && classOffset !in layout.playerClassOffsets && classOffset !in layout.staffClassOffsets
    && classOffset !in layout.humanManagerClassOffsets
  }

  // ---------------------------------------------------------------- recognition

  lemma ClassIsResolved(reader: Reader, vtable: Word64, classOffset: int)
    ensures LeadsToClass(reader, vtable, classOffset) <==>
            classOffset != 0 && ResolveClassOffset(reader, vtable) == classOffset
  {
  }

  lemma AbilityIsRead(reader: Reader, block: Word64, offset: int, value: int)
    ensures HasAbility(reader, block, offset, value) <==>
            AbilityAt(reader, block, offset).Some? && AbilityAt(reader, block, offset).value == value
  {
  }

  lemma WantedIsIncluded(ctx: Context, address: Word64)
    ensures IsWanted(ctx, address) <==> Includes(ctx.scope, GenderAt(ctx, address))
  {
    var field := TryAdd(address, ctx.layout.genderOffset);
    if field.Some? && ctx.reader.readByte(field.value).Some? {
      assert HasGenderByte(ctx, address, ctx.reader.readByte(field.value).value);
    }
  }

  lemma PointerIsRead(reader: Reader, address: Word64, offset: int, value: Word64)
    ensures HasPointer(reader, address, offset, value) <==> ReadPointerAt(reader, address, offset) == Some(value)
  {
  }

  lemma ClubIsRead(ctx: Context, club: ClubCandidate)
    ensures IsClub(ctx, club) <==> ClubAt(ctx, club.address) == Some(club)
  {
    hide HasPointer, ReadPointerAt;
    var begin := ReadPointerAt(ctx.reader, club.address, ctx.layout.clubTeamsBeginOffset);
    var end := ReadPointerAt(ctx.reader, club.address, ctx.layout.clubTeamsEndOffset);
    forall value: Word64
      ensures HasPointer(ctx.reader, club.address, ctx.layout.clubTeamsBeginOffset, value) <==> begin == Some(value)
    {
      PointerIsRead(ctx.reader, club.address, ctx.layout.clubTeamsBeginOffset, value);
    }
    forall value: Word64
      ensures HasPointer(ctx.reader, club.address, ctx.layout.clubTeamsEndOffset, value) <==> end == Some(value)
    {
      PointerIsRead(ctx.reader, club.address, ctx.layout.clubTeamsEndOffset, value);
    }
  }

  lemma VerdictOnPerson(ctx: Context, address: Word64, uid: Word32, classOffset: int, c: PersonCandidate)
    ensures VerdictAt(ctx, address, uid, classOffset) == Person(c) <==>
            && uid != 0 && uid != 0xFFFF_FFFF
            && c.objectAddress == address && c.classOffset == classOffset && c.uid == uid
            && (IsPlayer(ctx, c) || IsStaff(ctx, c))
  {
    hide HasAbility, AbilityAt, IsWanted, GenderAt, ClubAt, Includes;
    WantedIsIncluded(ctx, address);
    forall block: Word64, offset, value
      ensures HasAbility(ctx.reader, block, offset, value) <==>
              AbilityAt(ctx.reader, block, offset).Some? && AbilityAt(ctx.reader, block, offset).value == value
    {
      AbilityIsRead(ctx.reader, block, offset, value);
    }
  }

  lemma VerdictOnClub(ctx: Context, address: Word64, uid: Word32, classOffset: int, club: ClubCandidate)
    ensures VerdictAt(ctx, address, uid, classOffset) == Verdict.Club(club) <==>
            && uid != 0 && uid != 0xFFFF_FFFF && club.address == address
            && IsOtherClass(ctx.layout, classOffset) && IsClub(ctx, club)
  {
    hide IsClub, AbilityAt, GenderAt, ClubAt, Includes;
    ClubIsRead(ctx, club);
    ClubHasAddress(ctx, address);
  }

  lemma ClubHasAddress(ctx: Context, address: Word64)
    ensures ClubAt(ctx, address).Some? ==> ClubAt(ctx, address).value.address == address
  {
  }

  /** What is observed where the bytes of a header are those in memory. */
  ghost function ObservedInMemory(ctx: Context, image: Image, address: Word64): Observation
    requires ctx.layout.Scannable() && Mapped(image, address, ctx.layout.HeaderBytes())
  {
    Observe(ctx, address, Get(image, address, ctx.layout.HeaderBytes()))
  }

  lemma ObjectIsSeen(ctx: Context, image: Image, address: Word64, classOffset: int, uid: Word32)
    requires ctx.layout.Scannable() && Mapped(image, address, ctx.layout.HeaderBytes()) && uid != 0 && uid != 0xFFFF_FFFF
    ensures HoldsObject(ctx, image, address, classOffset, uid) <==>
            && IsModuleVtable(ctx, U64At(image, address)) && classOffset != 0
            && ResolveClassOffset(ctx.reader, U64At(image, address)) == classOffset
            && U32At(image, address + ctx.layout.objectUidOffset) == uid
  {
    hide LeadsToClass, ResolveClassOffset, U64At, U32At;
    ClassIsResolved(ctx.reader, U64At(image, address), classOffset);
  }

  /** A person is recognized at an address exactly when memory holds one there. */
  lemma PersonIsRecognizedIff(ctx: Context, image: Image, address: Word64, c: PersonCandidate)
    requires ctx.layout.Scannable() && Mapped(image, address, ctx.layout.HeaderBytes())
    ensures PersonOf(ObservedInMemory(ctx, image, address)) == Some(c) <==>
            && c.objectAddress == address && HoldsObject(ctx, image, address, c.classOffset, c.uid)
            && (IsPlayer(ctx, c) || IsStaff(ctx, c))
  {
    hide VerdictAt, IsPlayer, IsStaff, UInt32At, UInt64At, U64At, U32At, LeadsToClass, ResolveClassOffset, Get,
         IsModuleVtable, IsGameVtable, HoldsObject;
    var header := ctx.layout.HeaderBytes();
    HeaderIsMemory(image, address, header, ctx.layout.objectUidOffset);
    var vtable, uid := U64At(image, address), U32At(image, address + ctx.layout.objectUidOffset);
    VerdictOnPerson(ctx, address, uid, ResolveClassOffset(ctx.reader, vtable), c);
    if c.uid != 0 && c.uid != 0xFFFF_FFFF {
      ObjectIsSeen(ctx, image, address, c.classOffset, c.uid);
    } else {
      ObjectIsValid(ctx, image, address, c.classOffset, c.uid);
    }
  }

  lemma ObjectIsValid(ctx: Context, image: Image, address: Word64, classOffset: int, uid: Word32)
    ensures HoldsObject(ctx, image, address, classOffset, uid) ==> uid != 0 && uid != 0xFFFF_FFFF
  {
  }

  /** A club is recognized at an address exactly when memory holds one there. */
  lemma ClubIsRecognizedIff(ctx: Context, image: Image, address: Word64, club: ClubCandidate)
    requires ctx.layout.Scannable() && Mapped(image, address, ctx.layout.HeaderBytes())
    ensures ClubOf(ObservedInMemory(ctx, image, address)) == Some(club) <==>
            && club.address == address && IsClub(ctx, club)
            && exists classOffset, uid :: HoldsObject(ctx, image, address, classOffset, uid)
                                          && IsOtherClass(ctx.layout, classOffset)
  {
    hide VerdictAt, IsClub, UInt32At, UInt64At, U64At, U32At, LeadsToClass, ResolveClassOffset, Get,
         IsModuleVtable, IsGameVtable, HoldsObject, IsOtherClass;
    var header := ctx.layout.HeaderBytes();
    HeaderIsMemory(image, address, header, ctx.layout.objectUidOffset);
    var vtable, uid := U64At(image, address), U32At(image, address + ctx.layout.objectUidOffset);
    var classOffset := ResolveClassOffset(ctx.reader, vtable);
    VerdictOnClub(ctx, address, uid, classOffset, club);
    forall other, id: Word32
      ensures HoldsObject(ctx, image, address, other, id) <==>
              && id != 0 && id != 0xFFFF_FFFF && IsModuleVtable(ctx, vtable) && other != 0 && classOffset == other
              && uid == id
    {
      ObjectIsValid(ctx, image, address, other, id);
      if id != 0 && id != 0xFFFF_FFFF {
        ObjectIsSeen(ctx, image, address, other, id);
      }
    }
    assert ClubOf(ObservedInMemory(ctx, image, address)) == Some(club) ==>
             HoldsObject(ctx, image, address, classOffset, uid);
  }

  // ---------------------------------------------------------------- nobody is missed

  /** The region, which ends within the address space, has room for a header at this multiple of eight. */
  ghost predicate LiesInRegion(layout: Layout, region: MemoryRegion, address: Word64) {
    && region.baseAddress + region.size < 0x1_0000_0000_0000_0000
    && address % 8 == 0 && region.baseAddress <= address
    && HasRoom(layout, address, region.baseAddress + region.size)
  }

  /** Reads of at most 32 MiB within the region that take in the header at the address tell all of its bytes. */
  ghost predicate IsReadable(ctx: Context, region: MemoryRegion, address: Word64) {
    forall start: Word64, length: nat ::
      && region.baseAddress <= start <= address && HasRoom(ctx.layout, address, start + length)
      && start + length <= region.baseAddress + region.size && length <= 33554432 ==>
        TellsHeader(ctx, ctx.reader.readBlock(start, length), length, address - start)
  }

  ghost predicate TellsHeader(ctx: Context, outcome: BlockOutcome, length: nat, local: nat) {
    && outcome.Returned? && outcome.result.hasExactCoverage && length <= outcome.result.requestedBytes
    && forall p :: local <= p < local + 16 || local <= p < local + ctx.layout.objectUidOffset + 4 ==>
         Covers(outcome.result.ranges, p)
  }

  lemma RegionIsWalked(layout: Layout, region: MemoryRegion, address: Word64)
    requires layout.Scannable() && LiesInRegion(layout, region, address)
    ensures var plan := PlanFor(layout, region);
            plan.Walked? && plan.start <= address && address + layout.HeaderBytes() <= plan.end
  {
  }

  lemma HeaderIsTold(ctx: Context, region: MemoryRegion, b: Block, address: Word64)
    requires ctx.Valid() && IsReadable(ctx, region, address)
    requires b in BlocksOf(ctx.layout, region) && b.Inspects(ctx.layout.HeaderBytes(), address)
    ensures HeaderCovered(ctx.reader, b, ctx.layout.HeaderBytes(), address)
  {
    hide Walk, Reader.Sound;
    var Walked(from, end) := PlanFor(ctx.layout, region);
    BlocksFit(from, end, ctx.layout.HeaderBytes(), ctx.layout.Overlap(), false, b);
    var start: Word64 := b.start;
    var outcome := ctx.reader.readBlock(start, b.length);
    assert TellsHeader(ctx, outcome, b.length, address - start);
  }

  /** A list of candidates has this person, at this address or at a lower one. */
  predicate Lists(list: seq<PersonCandidate>, uid: Word32, address: Word64) {
    exists i :: 0 <= i < |list| && list[i].uid == uid && list[i].objectAddress <= address
  }

  lemma InListed(people: People, uid: Word32)
    requires Filed(people) && uid in people
    ensures PersonScanner.Lists(InKeyOrder(people), people)
    ensures Lists(InKeyOrder(people), uid, people[uid].objectAddress)
  {
    hide InKeyOrder;
    UidOrderLists(people);
    var list := InKeyOrder(people);
    var i :| 0 <= i < |list| && list[i].uid == uid;
  }

  lemma MemoryIsObserved(ctx: Context, image: Image, regions: seq<MemoryRegion>, region: MemoryRegion,
                         address: Word64)
    requires ctx.Valid() && ctx.layout.objectUidOffset + 4 <= 33554432 && ReadsImage(ctx.reader, image)
    requires region in regions && LiesInRegion(ctx.layout, region, address) && IsReadable(ctx, region, address)
    ensures Mapped(image, address, ctx.layout.HeaderBytes())
    ensures ObservedInMemory(ctx, image, address) in Observations(ctx, regions)
  {
    hide SeenIn, Observe, Observations, HeaderCovered, ReadsImage, BlocksOf, PlanFor, LiesInRegion, IsReadable, Get;
    RegionIsWalked(ctx.layout, region, address);
    var plan := PlanFor(ctx.layout, region);
    assert address % 8 == 0 by { AddressIsAligned(ctx.layout, region, address); }
    var b := EveryObjectIsObserved(ctx, regions, region, address);
    HeaderIsTold(ctx, region, b, address);
    CoveredShowsMemory(ctx.reader, image, b, ctx.layout.HeaderBytes(), address);
  }

  lemma AddressIsAligned(layout: Layout, region: MemoryRegion, address: Word64)
    requires LiesInRegion(layout, region, address)
    ensures address % 8 == 0
  {
  }

  lemma ObservedIsListed(ctx: Context, regions: seq<MemoryRegion>, o: Observation, c: PersonCandidate)
    requires ctx.Valid() && o in Observations(ctx, regions) && PersonOf(o) == Some(c)
    ensures var r := ExpectedResult(ctx, regions);
            && (c.facet == Player ==> Lists(r.players, c.uid, c.objectAddress))
            && (c.facet != Player ==> Lists(r.rawStaff, c.uid, c.objectAddress))
            && (c.facet == HumanManager ==> Lists(r.humanManagers, c.uid, c.objectAddress))
  {
    hide Observations, InKeyOrder, LowestByUid, Select, Filed, Reader.Sound, Quality, Ascending;
    var obs := Observations(ctx, regions);
    if c.facet == Player {
      HitIsListed(obs, PlayerOf, o, c);
    } else {
      HitIsListed(obs, StaffOf, o, c);
      if c.facet == HumanManager {
        HitIsListed(obs, ManagerOf, o, c);
      }
    }
  }

  lemma HitIsListed(obs: seq<Observation>, f: Observation -> Option<PersonCandidate>, o: Observation,
                    c: PersonCandidate)
    requires o in obs && f(o) == Some(c)
    ensures Lists(InKeyOrder(LowestByUid(Select(obs, f))), c.uid, c.objectAddress)
  {
    hide InKeyOrder, LowestByUid, Select, Filed;
    var hits := Select(obs, f);
    SelectedIsIn(obs, f, o, c);
    LowestIsNoHigher(hits, c);
    LowestIsFiled(hits);
    InListed(LowestByUid(hits), c.uid);
  }

  /** Nobody is missed: every player or member of the staff that memory holds in a readable place is in the result. */
  lemma PersonsAreFound(ctx: Context, image: Image, regions: seq<MemoryRegion>, region: MemoryRegion,
                        c: PersonCandidate)
    requires ctx.Valid() && ctx.layout.objectUidOffset + 4 <= 33554432 && ReadsImage(ctx.reader, image)
    requires region in regions && LiesInRegion(ctx.layout, region, c.objectAddress)
    requires IsReadable(ctx, region, c.objectAddress)
    requires HoldsObject(ctx, image, c.objectAddress, c.classOffset, c.uid)
    ensures IsPlayer(ctx, c) ==> Lists(ExpectedResult(ctx, regions).players, c.uid, c.objectAddress)
    ensures IsStaff(ctx, c) ==> Lists(ExpectedResult(ctx, regions).rawStaff, c.uid, c.objectAddress)
    ensures IsStaff(ctx, c) && c.facet == HumanManager ==>
              Lists(ExpectedResult(ctx, regions).humanManagers, c.uid, c.objectAddress)
  {
    hide Observations, ObservedInMemory, PersonOf, IsReadable, LiesInRegion, ReadsImage, HoldsObject, IsPlayer, IsStaff,
         ExpectedResult, Lists;
    MemoryIsObserved(ctx, image, regions, region, c.objectAddress);
    PersonIsRecognizedIff(ctx, image, c.objectAddress, c);
    FacetTells(ctx, c);
    if IsPlayer(ctx, c) || IsStaff(ctx, c) {
      ObservedIsListed(ctx, regions, ObservedInMemory(ctx, image, c.objectAddress), c);
    }
  }

  lemma FacetTells(ctx: Context, c: PersonCandidate)
    ensures IsPlayer(ctx, c) ==> c.facet == Player
    ensures IsStaff(ctx, c) ==> c.facet != Player
  {
  }

  /** Every club that memory holds in a readable place is in the result. */
  lemma ClubsAreFound(ctx: Context, image: Image, regions: seq<MemoryRegion>, region: MemoryRegion,
                      club: ClubCandidate, classOffset: int, uid: Word32)
    requires ctx.Valid() && ctx.layout.objectUidOffset + 4 <= 33554432 && ReadsImage(ctx.reader, image)
    requires region in regions && LiesInRegion(ctx.layout, region, club.address)
    requires IsReadable(ctx, region, club.address)
    requires HoldsObject(ctx, image, club.address, classOffset, uid) && IsOtherClass(ctx.layout, classOffset)
    requires IsClub(ctx, club)
    ensures exists found :: found in ExpectedResult(ctx, regions).clubs && found.address == club.address
  {
    hide Observations, ObservedInMemory, ClubOf, IsReadable, LiesInRegion, ReadsImage, HoldsObject, IsClub,
         ExpectedResult;
    MemoryIsObserved(ctx, image, regions, region, club.address);
    ClubIsRecognizedIff(ctx, image, club.address, club);
    ObservedClubIsListed(ctx, regions, ObservedInMemory(ctx, image, club.address), club);
  }

  lemma ObservedClubIsListed(ctx: Context, regions: seq<MemoryRegion>, o: Observation, club: ClubCandidate)
    requires ctx.Valid() && o in Observations(ctx, regions) && ClubOf(o) == Some(club)
    ensures exists found :: found in ExpectedResult(ctx, regions).clubs && found.address == club.address
  {
    hide Observations, InKeyOrder, FirstByAddress, Select, ClubsFiled, Reader.Sound, Quality, Ascending, ClubOf;
    var hits := Select(Observations(ctx, regions), ClubOf);
    SelectedIsIn(Observations(ctx, regions), ClubOf, o, club);
    FirstIsKept(hits, club);
    ClubsAppend([], hits);
    var clubs := FirstByAddress(hits);
    AddressOrderLists(clubs);
    var list := InKeyOrder(clubs);
    var i :| 0 <= i < |list| && list[i].address == club.address;
    assert list[i] in list;
  }

  lemma {:induction false} FirstIsKept(hits: seq<ClubCandidate>, club: ClubCandidate)
    requires club in hits
    ensures club.address in FirstByAddress(hits)
  {
    var n := |hits| - 1;
    if club != hits[n] {
      assert club in hits[..n];
      FirstIsKept(hits[..n], club);
    }
  }

  // ---------------------------------------------------------------- nobody is made up

  lemma InsideRegion(layout: Layout, region: MemoryRegion, address: Word64)
    requires layout.Scannable()
    requires var plan := PlanFor(layout, region);
             plan.Walked? && plan.start <= address && address + layout.HeaderBytes() <= plan.end
    ensures region.baseAddress + region.size < 0x1_0000_0000_0000_0000 && region.baseAddress <= address
    ensures HasRoom(layout, address, region.baseAddress + region.size)
  {
  }

  /** What a block shows as a person is one, and is what memory holds if the place is readable. */
  lemma ShownIsHeld(ctx: Context, image: Image, region: MemoryRegion, b: Block, c: PersonCandidate)
    requires ctx.Valid() && ReadsImage(ctx.reader, image)
    requires b in BlocksOf(ctx.layout, region) && ShownBy(ctx, b, c)
    ensures c.uid != 0 && c.uid != 0xFFFF_FFFF && (IsPlayer(ctx, c) || IsStaff(ctx, c))
    ensures IsReadable(ctx, region, c.objectAddress) ==> HoldsObject(ctx, image, c.objectAddress, c.classOffset, c.uid)
  {
    hide SeenIn, HeaderCovered, ReadsImage, BlocksOf, IsReadable, Get, VerdictAt, IsPlayer, IsStaff, HoldsObject,
         UInt32At, UInt64At, IsModuleVtable, ResolveClassOffset;
    var local, header := c.objectAddress - b.start, ctx.layout.HeaderBytes();
    var bytes := SeenIn(ctx.reader, b).bytes[local..local + header];
    VerdictOnPerson(ctx, c.objectAddress, UInt32At(bytes, ctx.layout.objectUidOffset), c.classOffset, c);
    if IsReadable(ctx, region, c.objectAddress) {
      HeaderIsTold(ctx, region, b, c.objectAddress);
      CoveredShowsMemory(ctx.reader, image, b, header, c.objectAddress);
      PersonIsRecognizedIff(ctx, image, c.objectAddress, c);
    }
  }

  lemma ObservedIsHeld(ctx: Context, image: Image, regions: seq<MemoryRegion>, o: Observation, c: PersonCandidate)
    returns (region: MemoryRegion)
    requires ctx.Valid() && ReadsImage(ctx.reader, image) && o in Observations(ctx, regions) && PersonOf(o) == Some(c)
    ensures IsHeldIn(ctx, image, regions, region, c) && (IsPlayer(ctx, c) || IsStaff(ctx, c))
  {
    hide ShownBy, ReadsImage, Observations, IsReadable, HoldsObject, IsPlayer, IsStaff, PlanFor, HasRoom;
    var b;
    region, b := ShownInRegions(ctx, regions, o, c);
    ShownIsHeld(ctx, image, region, b, c);
    ShownIsInspected(ctx, b, c);
    var Walked(start, end) := PlanFor(ctx.layout, region);
    assert start + ctx.layout.HeaderBytes() <= end && start % 8 == 0 by { WalkedIsAligned(ctx.layout, region); }
    InspectedIsInside(start, end, ctx.layout.HeaderBytes(), ctx.layout.Overlap(), b, c.objectAddress);
    InsideRegion(ctx.layout, region, c.objectAddress);
  }

  lemma WalkedIsAligned(layout: Layout, region: MemoryRegion)
    requires layout.Scannable() && PlanFor(layout, region).Walked?
    ensures var plan := PlanFor(layout, region);
            plan.start % 8 == 0 && plan.start + layout.HeaderBytes() <= plan.end
  {
  }

  lemma ShownIsInspected(ctx: Context, b: Block, c: PersonCandidate)
    requires ctx.Valid() && Addressable(b) && ShownBy(ctx, b, c)
    ensures b.Inspects(ctx.layout.HeaderBytes(), c.objectAddress)
  {
  }

  /** A valid uid and a place in a region; and what memory holds there, if the place is readable. */
  ghost predicate IsHeldIn(ctx: Context, image: Image, regions: seq<MemoryRegion>, region: MemoryRegion,
                           c: PersonCandidate)
  {
    && c.uid != 0 && c.uid != 0xFFFF_FFFF && region in regions
    && region.baseAddress + region.size < 0x1_0000_0000_0000_0000 && region.baseAddress <= c.objectAddress
    && HasRoom(ctx.layout, c.objectAddress, region.baseAddress + region.size)
    && (IsReadable(ctx, region, c.objectAddress) ==>
          HoldsObject(ctx, image, c.objectAddress, c.classOffset, c.uid))
  }

  lemma ListedWasObserved(obs: seq<Observation>, f: Observation -> Option<PersonCandidate>, c: PersonCandidate)
    returns (o: Observation)
    requires c in InKeyOrder(LowestByUid(Select(obs, f)))
    ensures o in obs && f(o) == Some(c)
  {
    hide InKeyOrder, LowestByUid, Select, Filed;
    var hits := Select(obs, f);
    var people := LowestByUid(hits);
    LowestIsFiled(hits);
    UidOrderLists(people);
    var i :| 0 <= i < |InKeyOrder(people)| && InKeyOrder(people)[i] == c;
    assert c.uid in people && people[c.uid] == c;
    var k := WinnerOf(hits, c.uid);
    o := SelectedFrom(obs, f, c);
  }

  /** Nobody is made up: whoever the result lists is a player, or a member of the staff, in one of the regions. */
  lemma ListedPersonsAreHeld(ctx: Context, image: Image, regions: seq<MemoryRegion>, c: PersonCandidate)
    returns (region: MemoryRegion)
    requires ctx.Valid() && ReadsImage(ctx.reader, image)
    requires var r := ExpectedResult(ctx, regions); c in r.players || c in r.rawStaff || c in r.humanManagers
    ensures IsHeldIn(ctx, image, regions, region, c)
    ensures c in ExpectedResult(ctx, regions).players ==> IsPlayer(ctx, c)
    ensures c in ExpectedResult(ctx, regions).rawStaff ==> IsStaff(ctx, c)
    ensures c in ExpectedResult(ctx, regions).humanManagers ==> IsStaff(ctx, c) && c.facet == HumanManager
  {
    hide Observations, InKeyOrder, LowestByUid, Select, Filed, Reader.Sound, Quality, Ascending, ReadsImage, IsPlayer,
         IsStaff, IsHeldIn;
    var obs, r := Observations(ctx, regions), ExpectedResult(ctx, regions);
    FacetTells(ctx, c);
    var o;
    if c in r.humanManagers {
      o := ListedWasObserved(obs, ManagerOf, c);
      region := ObservedIsHeld(ctx, image, regions, o, c);
    }
    if c in r.rawStaff {
      o := ListedWasObserved(obs, StaffOf, c);
      region := ObservedIsHeld(ctx, image, regions, o, c);
    }
    if c in r.players {
      o := ListedWasObserved(obs, PlayerOf, c);
      region := ObservedIsHeld(ctx, image, regions, o, c);
    }
  }

  predicate ByUid(list: seq<PersonCandidate>) {
    forall i, j :: 0 <= i < j < |list| ==> list[i].uid < list[j].uid
  }

  predicate HasUid(list: seq<PersonCandidate>, uid: nat) { exists c :: c in list && c.uid == uid }

  lemma UidOrder(people: People)
    requires Filed(people)
    ensures ByUid(InKeyOrder(people))
    ensures forall c :: c in InKeyOrder(people) <==> c.uid in people && people[c.uid] == c
    ensures forall u: nat :: HasUid(InKeyOrder(people), u) <==> u in people.Keys
  {
    UidOrderLists(people);
    var list := InKeyOrder(people);
    forall c: PersonCandidate | c.uid in people && people[c.uid] == c ensures c in list {
      var i :| 0 <= i < |list| && list[i].uid == c.uid;
      assert list[i] in list;
    }
    forall u: nat | u in people.Keys ensures HasUid(list, u) {
      assert people[u] in list;
    }
  }

  /**
   Every list is in the order of the uids and names each of them once. Who is among the players as well is left
   out of the staff, but reported.
   */
  lemma ListsAreOrdered(ctx: Context, regions: seq<MemoryRegion>)
    requires ctx.Valid()
    ensures var r := ExpectedResult(ctx, regions);
            && ByUid(r.players) && ByUid(r.rawStaff) && ByUid(r.humanManagers) && ByUid(r.staff)
            && (forall c :: c in r.staff <==> c in r.rawStaff && !HasUid(r.players, c.uid))
            && (forall u :: u in r.playerStaffOverlapUids <==> HasUid(r.players, u) && HasUid(r.rawStaff, u))
            && (forall i, j :: 0 <= i < j < |r.playerStaffOverlapUids| ==>
                  r.playerStaffOverlapUids[i] < r.playerStaffOverlapUids[j])
  {
    hide Observations, InKeyOrder, LowestByUid, Select, Reader.Sound, Quality, ByUid, HasUid;
    var obs := Observations(ctx, regions);
    LowestIsFiled(Select(obs, PlayerOf));
    LowestIsFiled(Select(obs, StaffOf));
    LowestIsFiled(Select(obs, ManagerOf));
    var players, staff := LowestByUid(Select(obs, PlayerOf)), LowestByUid(Select(obs, StaffOf));
    UidOrder(players);
    UidOrder(staff);
    UidOrder(LowestByUid(Select(obs, ManagerOf)));
    UidOrder(staff - players.Keys);
  }
}
