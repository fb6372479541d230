/**
 Table layouts as persisted and read back: whatever was stored, by whatever version, sanitizing and
 migrating give a canonical layout, and canonical layouts are exactly those that survive a round trip.
 */
module TableLayouts {
  import opened Wrappers

  // ---------------------------------------------------------------- stored values

  /** A number as JavaScript has it; finite ones are taken as reals. */
  datatype Number = NaN | PositiveInfinity | NegativeInfinity | Finite(value: real)

  /** A stored value. An array, being an object, may answer to names as well. */
  datatype Json =
    | Null
    | Boolean(truth: bool)
    | Str(text: string)
    | Num(number: Number)
    | Arr(items: seq<Json>, named: map<string, Json>)
    | Obj(fields: map<string, Json>)

  /** The property of a record; anything that is not a record counts as an empty one. */
  function Property(value: Option<Json>, name: string): Option<Json> {
    match value
    case Some(Obj(fields)) => if name in fields then Some(fields[name]) else None
    case Some(Arr(_, named)) => if name in named then Some(named[name]) else None
    case _ => None
  }

  function FiniteNumber(value: Option<Json>): Option<real> {
    match value
    case Some(Num(Finite(x))) => Some(x)
    case _ => None
  }

  // ---------------------------------------------------------------- tables and columns

  datatype Table = Search | MoneyballSearch | Squad | StaffSearch | MyStaff | StaffShortlist

  function NameOf(t: Table): string {
    match t
    case Search => "search"
    case MoneyballSearch => "moneyball-search"
    case Squad => "squad"
    case StaffSearch => "staff-search"
    case MyStaff => "my-staff"
    case StaffShortlist => "staff-shortlist"
  }

  const SUGGESTED_TRAINING := "suggested_training"
  const MIN_COLUMN_WIDTH: real := 72.0
  const MAX_COLUMN_WIDTH: real := 360.0
  const IDENTITY_MIN_WIDTH: real := 240.0
  const IDENTITY_DEFAULT_WIDTH: real := 280.0
  const IDENTITY_MAX_WIDTH: real := 360.0

  const PLAYER_DEFAULTS: seq<string> := ["name", "age", "nationality", "club", "division", "ca", "pa", "value"]
  const MONEYBALL_DEFAULTS: seq<string> := [
    "name", "age", "nationality", "club", "division", "moneyball.minutes", "moneyball.average_rating",
    "moneyball.goals_per_90", "moneyball.assists_per_90", "moneyball.xg_per_90", "moneyball.xa_per_90"]

  predicate IsIdentity(id: string) { id == "name" || id == "club" || id == "division" }

  predicate IsClubOrDivision(id: string) { id == "club" || id == "division" }

  predicate IsSharedMoneyballColumn(id: string) {
    id == "name" || id == "age" || id == "nationality" || id == "club" || id == "division" || id == "value"
  }

  predicate IsPlayerTable(t: Table) { t.Search? || t.MoneyballSearch? || t.Squad? }

  /** Metric catalogues as far as the store consults them. */
  datatype Catalog = Catalog(
    isTactic: string -> bool,
    isValidTactic: string -> bool,
    isMoneyballSortable: string -> bool,
    isPlayerSortable: string -> bool,
    staffDefaults: seq<string>)
  {
    /** The allowlist before version 8, which still permits identity columns. */
    predicate IsAllowedV7(t: Table, id: string) {
      if id == "" then false
      else if id == SUGGESTED_TRAINING then t.Squad?
      else if isValidTactic(id) then t.Search? || t.MoneyballSearch?
      else if isTactic(id) then false
      else if t.MoneyballSearch? then isMoneyballSortable(id) || IsSharedMoneyballColumn(id)
      else if t.Search? || t.Squad? then isPlayerSortable(id)
      else true
    }

    predicate IsAllowed(t: Table, id: string) { !IsIdentity(id) && IsAllowedV7(t, id) }

    function StaffShortlistDefaults(): seq<string> {
      ["name", "age", "nationality", "club", "ca", "pa", "preferred_job", "club_job", "coaching_qualifications"] +
      Without(staffDefaults, id => id in ["name", "age", "nationality", "ca", "pa"])
    }

    /** What a fresh or reset table shows. */
    function DefaultColumnIds(t: Table): seq<string> {
      match t
      case MoneyballSearch =>
        ["age", "nationality", "height", "moneyball.minutes", "moneyball.average_rating", "moneyball.goals_per_90",
         "moneyball.assists_per_90", "moneyball.xg_per_90", "moneyball.xa_per_90"]
      case Squad => ["age", "nationality", "height", "ca", "pa", "value", SUGGESTED_TRAINING]
      case Search => ["age", "nationality", "height", "ca", "pa", "value"]
      case StaffShortlist => Without(StaffShortlistDefaults(), IsIdentity)
      case _ => Without(staffDefaults, IsIdentity)
    }

    /** What version 8 made of a default table when it migrated one. */
    function HistoricalV8ColumnIds(t: Table): seq<string> {
      match t
      case MoneyballSearch =>
        ["age", "nationality", "moneyball.minutes", "moneyball.average_rating", "moneyball.goals_per_90",
         "moneyball.assists_per_90", "moneyball.xg_per_90", "moneyball.xa_per_90"]
      case Squad => ["age", "nationality", "ca", "pa", "value", SUGGESTED_TRAINING]
      case Search => ["age", "nationality", "ca", "pa", "value"]
      case _ => DefaultColumnIds(t)
    }

    function V7DefaultColumnIds(t: Table): seq<string> {
      match t
      case MoneyballSearch => Without(MONEYBALL_DEFAULTS, IsClubOrDivision)
      case Squad => Without(PLAYER_DEFAULTS, IsClubOrDivision) + [SUGGESTED_TRAINING]
      case Search => Without(PLAYER_DEFAULTS, IsClubOrDivision)
      case StaffShortlist => StaffShortlistDefaults()
      case _ => staffDefaults
    }

    /** The built-in columns of every table are in the catalogue, once each. */
    ghost predicate Sound() {
      && (forall t, id :: id in DefaultColumnIds(t) ==> IsAllowed(t, id))
      && (forall t, id :: id in HistoricalV8ColumnIds(t) ==> IsAllowed(t, id))
      && (forall t, id :: id in V7DefaultColumnIds(t) ==> IsAllowedV7(t, id))
      && (forall t :: Unique(DefaultColumnIds(t)) && Unique(HistoricalV8ColumnIds(t)) && Unique(V7DefaultColumnIds(t)))
    }
  }

  function Allowed(catalog: Catalog, t: Table): string -> bool { id => catalog.IsAllowed(t, id) }

  function AllowedV7(catalog: Catalog, t: Table): string -> bool { id => catalog.IsAllowedV7(t, id) }

  ghost predicate Unique(ids: seq<string>) { forall i, j :: 0 <= i < j < |ids| ==> ids[i] != ids[j] }

  /** The ids that the predicate does not strike out, in order. */
  function Without(ids: seq<string>, struck: string -> bool): (kept: seq<string>)
    ensures forall id :: id in kept <==> id in ids && !struck(id)
  {
    if ids == [] then []
    else
      var n := |ids| - 1;
      var before := Without(ids[..n], struck);
      assert forall id :: id in ids <==> id in ids[..n] || id == ids[n];
      if struck(ids[n]) then before else before + [ids[n]]
  }

  /** The first occurrences of the ids that pass, in order. */
  function FirstOf(ids: seq<string>, passes: string -> bool): (kept: seq<string>)
    ensures forall id :: id in kept <==> id in ids && passes(id)
    ensures Unique(kept)
  {
    if ids == [] then []
    else
      var n := |ids| - 1;
      var before := FirstOf(ids[..n], passes);
      assert forall id :: id in ids <==> id in ids[..n] || id == ids[n];
      if passes(ids[n]) && ids[n] !in ids[..n] then before + [ids[n]] else before
  }

  /** The texts among the stored items. Items of other kinds are never equal to a text. */
  function Texts(items: seq<Json>): seq<string> {
    if items == [] then []
    else
      var n := |items| - 1;
      if items[n].Str? then Texts(items[..n]) + [items[n].text] else Texts(items[..n])
  }

  // ---------------------------------------------------------------- layouts

  datatype Layout = Layout(columnIds: seq<string>, widths: map<string, real>, identityWidth: real)

  function Clamp(value: real, low: real, high: real): (r: real)
    requires low <= high
    ensures low <= r <= high
    ensures low <= value <= high ==> r == value
  {
    if value < low then low else if value > high then high else value
  }

  /** Rounded half up to a whole number of pixels, within the limits. */
  function ClampWidth(width: real): (r: real)
    ensures IsColumnWidth(r)
    ensures IsColumnWidth(width) ==> r == width
  {
    var rounded := (width + 0.5).Floor as real;
    assert IsColumnWidth(width) ==> (width + 0.5).Floor == width.Floor;
    Clamp(rounded, MIN_COLUMN_WIDTH, MAX_COLUMN_WIDTH)
  }

  predicate IsColumnWidth(width: real) {
    MIN_COLUMN_WIDTH <= width <= MAX_COLUMN_WIDTH && width == width.Floor as real
  }

  predicate IsIdentityWidth(width: real) { IDENTITY_MIN_WIDTH <= width <= IDENTITY_MAX_WIDTH }

  function ClampIdentityWidth(width: Option<real>): (r: real)
    ensures IsIdentityWidth(r)
    ensures width.Some? && IsIdentityWidth(width.value) ==> r == width.value
  {
    if width.None? then IDENTITY_DEFAULT_WIDTH else Clamp(width.value, IDENTITY_MIN_WIDTH, IDENTITY_MAX_WIDTH)
  }

  /** Distinct allowed columns, whole widths within the limits for columns of the table only. */
  ghost predicate Canonical(catalog: Catalog, t: Table, l: Layout) {
    && Unique(l.columnIds)
    && (forall id :: id in l.columnIds ==> catalog.IsAllowed(t, id))
    && (forall id :: id in l.widths ==> id in l.columnIds && IsColumnWidth(l.widths[id]))
    && IsIdentityWidth(l.identityWidth)
  }

  /** The stored widths of these columns, as far as they are finite numbers. */
  function WidthsOf(columnIds: seq<string>, stored: Option<Json>): map<string, real> {
    map id | id in columnIds && FiniteNumber(Property(stored, id)).Some? ::
      ClampWidth(FiniteNumber(Property(stored, id)).value)
  }

  function SanitizeLayout(catalog: Catalog, value: Option<Json>, t: Table): (l: Layout)
    requires catalog.Sound()
    ensures Canonical(catalog, t, l)
  {
    var storedIdentityWidth := FiniteNumber(Property(value, "identityWidth"));
    var identityWidth := ClampIdentityWidth(storedIdentityWidth);
    match Property(value, "columnIds")
    case Some(Arr(items, _)) =>
      if items != [] then
        var columnIds := FirstOf(Texts(items), Allowed(catalog, t));
        Layout(columnIds, WidthsOf(columnIds, Property(value, "widths")), identityWidth)
      else if storedIdentityWidth.Some? then Layout([], map[], identityWidth)
      else Layout(catalog.DefaultColumnIds(t), map[], identityWidth)
    case _ => Layout(catalog.DefaultColumnIds(t), map[], identityWidth)
  }

  // ---------------------------------------------------------------- round trip

  function TextsToJson(ids: seq<string>): Json {
    Arr(seq(|ids|, i requires 0 <= i < |ids| => Str(ids[i])), map[])
  }

  /** What is written to storage for one table. */
  function ToJson(l: Layout): Json {
    Obj(map["columnIds" := TextsToJson(l.columnIds),
            "widths" := Obj(map id | id in l.widths :: Num(Finite(l.widths[id]))),
            "identityWidth" := Num(Finite(l.identityWidth))])
  }

  lemma {:induction false} TextsRoundTrip(ids: seq<string>)
    ensures Texts(TextsToJson(ids).items) == ids
  {
    if ids != [] {
      var n := |ids| - 1;
      TextsRoundTrip(ids[..n]);
      assert TextsToJson(ids).items[..n] == TextsToJson(ids[..n]).items;
      assert ids == ids[..n] + [ids[n]];
    }
  }

  lemma {:induction false} UniqueIsKept(ids: seq<string>, passes: string -> bool)
    requires Unique(ids) && forall id :: id in ids ==> passes(id)
    ensures FirstOf(ids, passes) == ids
  {
    if ids != [] {
      var n := |ids| - 1;
      UniqueIsKept(ids[..n], passes);
      assert ids == ids[..n] + [ids[n]];
    }
  }

  lemma StoredFields(l: Layout)
    ensures Property(Some(ToJson(l)), "columnIds") == Some(TextsToJson(l.columnIds))
    ensures Property(Some(ToJson(l)), "widths") == Some(Obj(map id | id in l.widths :: Num(Finite(l.widths[id]))))
    ensures Property(Some(ToJson(l)), "identityWidth") == Some(Num(Finite(l.identityWidth)))
  {
  }

  lemma WidthsRoundTrip(l: Layout, stored: Option<Json>)
    requires forall id :: id in l.widths ==> id in l.columnIds && IsColumnWidth(l.widths[id])
    requires stored == Some(Obj(map id | id in l.widths :: Num(Finite(l.widths[id]))))
    ensures WidthsOf(l.columnIds, stored) == l.widths
  {
    forall id ensures FiniteNumber(Property(stored, id)) == if id in l.widths then Some(l.widths[id]) else None {
    }
  }

  /** A layout survives being stored and read back exactly when it is canonical. */
  lemma RoundTripIffCanonical(catalog: Catalog, t: Table, l: Layout)
    requires catalog.Sound()
    ensures SanitizeLayout(catalog, Some(ToJson(l)), t) == l <==> Canonical(catalog, t, l)
  {
    hide ToJson, Property, WidthsOf, Catalog.Sound, Catalog.IsAllowed, FirstOf, Texts, Catalog.DefaultColumnIds;
    StoredFields(l);
    if Canonical(catalog, t, l) {
      TextsRoundTrip(l.columnIds);
      UniqueIsKept(l.columnIds, Allowed(catalog, t));
      if l.columnIds != [] {
        WidthsRoundTrip(l, Property(Some(ToJson(l)), "widths"));
      } else {
        assert l.widths == map[];
      }
    }
  }

  // ---------------------------------------------------------------- migration

  datatype V7Layout = V7Layout(columnIds: seq<string>, widths: map<string, real>)

  function StoredTexts(value: Option<Json>): seq<string> {
    match Property(value, "columnIds")
    case Some(Arr(items, _)) => Texts(items)
    case _ => []
  }

  function SanitizeV7(catalog: Catalog, value: Option<Json>, t: Table, identityOnlyFallback: bool): V7Layout {
    var columnIds := FirstOf(StoredTexts(value), AllowedV7(catalog, t));
    if identityOnlyFallback && IsPlayerTable(t) && columnIds != [] && Without(columnIds, IsClubOrDivision) == [] then
      V7Layout(["name"], map[])
    else
      var visible := if columnIds != [] then columnIds else catalog.V7DefaultColumnIds(t);
      V7Layout(visible, WidthsOf(visible, Property(value, "widths")))
  }

  function RemoveClubAndDivision(l: V7Layout): V7Layout {
    var columnIds := Without(l.columnIds, IsClubOrDivision);
    V7Layout(columnIds, map id | id in l.widths && id in columnIds :: l.widths[id])
  }

  /** The upgrades up to version 7. */
  function UpgradeToV7(catalog: Catalog, value: Option<Json>, t: Table, version: int): V7Layout {
    var sanitized := SanitizeV7(catalog, value, t, version < 5);
    var slimmed := if version < 5 && IsPlayerTable(t) then RemoveClubAndDivision(sanitized) else sanitized;
    if version < 7 && t.Squad? && slimmed.columnIds == Without(PLAYER_DEFAULTS, IsClubOrDivision)
       && slimmed.widths == map[]
    then slimmed.(columnIds := slimmed.columnIds + [SUGGESTED_TRAINING])
    else slimmed
  }

  predicate IsDefaultLike(catalog: Catalog, t: Table, l: V7Layout) {
    l.columnIds == catalog.V7DefaultColumnIds(t) && l.widths == map[]
  }

  /** Stored columns that can be migrated: an array that is not empty. */
  predicate HasColumnArray(value: Option<Json>) {
    Property(value, "columnIds").Some? && Property(value, "columnIds").value.Arr?
    && Property(value, "columnIds").value.items != []
  }

  function MigrateTable(catalog: Catalog, value: Option<Json>, t: Table, version: int): (l: Layout)
    requires catalog.Sound()
    ensures Canonical(catalog, t, l)
  {
    var identityWidth := ClampIdentityWidth(FiniteNumber(Property(Property(value, "widths"), "name")));
    if !HasColumnArray(value) then
      Layout(catalog.HistoricalV8ColumnIds(t), map[], IDENTITY_DEFAULT_WIDTH)
    else
      var v7 := UpgradeToV7(catalog, value, t, version);
      if IsDefaultLike(catalog, t, v7) then Layout(catalog.HistoricalV8ColumnIds(t), map[], identityWidth)
      else
        var columnIds := FirstOf(Without(v7.columnIds, IsIdentity), Allowed(catalog, t));
        Layout(columnIds, map id | id in columnIds && id in v7.widths :: ClampWidth(v7.widths[id]), identityWidth)
  }

  /** Whatever is migrated needs no further sanitizing. */
  lemma MigrationLandsInFixpoints(catalog: Catalog, value: Option<Json>, t: Table, version: int)
    requires catalog.Sound()
    ensures var l := MigrateTable(catalog, value, t, version);
            SanitizeLayout(catalog, Some(ToJson(l)), t) == l
  {
    RoundTripIffCanonical(catalog, t, MigrateTable(catalog, value, t, version));
  }

  lemma WithoutAppend(ids: seq<string>, id: string, struck: string -> bool)
    ensures Without(ids + [id], struck) == if struck(id) then Without(ids, struck) else Without(ids, struck) + [id]
  {
    assert (ids + [id])[..|ids|] == ids;
  }

  lemma FirstOfAppend(ids: seq<string>, id: string, passes: string -> bool)
    ensures FirstOf(ids + [id], passes) ==
              if passes(id) && id !in ids then FirstOf(ids, passes) + [id] else FirstOf(ids, passes)
  {
    assert (ids + [id])[..|ids|] == ids;
  }

  /** Filtering in stages keeps what the strictest stage keeps. */
  lemma {:induction false} StagesAgree(ids: seq<string>, first: string -> bool, struck: string -> bool,
                                       struckToo: string -> bool, last: string -> bool)
    requires forall id :: last(id) ==> first(id) && !struck(id) && !struckToo(id)
    ensures FirstOf(Without(Without(FirstOf(ids, first), struck), struckToo), last) == FirstOf(ids, last)
  {
    if ids != [] {
      var n := |ids| - 1;
      var before, id := FirstOf(ids[..n], first), ids[n];
      StagesAgree(ids[..n], first, struck, struckToo, last);
      if first(id) && id !in ids[..n] {
        WithoutAppend(before, id, struck);
        var once := Without(before, struck);
        if !struck(id) {
          WithoutAppend(once, id, struckToo);
          if !struckToo(id) {
            FirstOfAppend(Without(once, struckToo), id, last);
          }
        }
      }
    }
  }

  predicate KeepAll(id: string) { false }

  lemma {:induction false} KeepAllKeepsAll(ids: seq<string>)
    ensures Without(ids, KeepAll) == ids
  {
    if ids != [] {
      KeepAllKeepsAll(ids[..|ids| - 1]);
    }
  }

  /** A layout with columns of its own: some stored column was known to version 7, and it was not the default. */
  predicate IsCustom(catalog: Catalog, value: Option<Json>, t: Table, version: int) {
    && FirstOf(StoredTexts(value), AllowedV7(catalog, t)) != []
    && !IsDefaultLike(catalog, t, UpgradeToV7(catalog, value, t, version))
  }

  /** Once sanitized and freed of duplicated identity columns, what version 8 allows is still all there. */
  lemma SlimmedColumns(catalog: Catalog, texts: seq<string>, t: Table)
    ensures var kept := FirstOf(texts, AllowedV7(catalog, t));
            && FirstOf(Without(kept, IsIdentity), Allowed(catalog, t)) == FirstOf(texts, Allowed(catalog, t))
            && FirstOf(Without(Without(kept, IsClubOrDivision), IsIdentity), Allowed(catalog, t)) ==
                 FirstOf(texts, Allowed(catalog, t))
            && (Without(kept, IsClubOrDivision) == [] ==> FirstOf(texts, Allowed(catalog, t)) == [])
  {
    var kept := FirstOf(texts, AllowedV7(catalog, t));
    StagesAgree(texts, AllowedV7(catalog, t), KeepAll, IsIdentity, Allowed(catalog, t));
    KeepAllKeepsAll(kept);
    StagesAgree(texts, AllowedV7(catalog, t), IsClubOrDivision, IsIdentity, Allowed(catalog, t));
  }

  /** The version 6 default of the squad table, once extended, is the version 7 default. */
  lemma ExtendedSquadIsDefault(catalog: Catalog, value: Option<Json>, t: Table, version: int)
    requires !IsDefaultLike(catalog, t, UpgradeToV7(catalog, value, t, version))
    ensures UpgradeToV7(catalog, value, t, version) ==
              var sanitized := SanitizeV7(catalog, value, t, version < 5);
              if version < 5 && IsPlayerTable(t) then RemoveClubAndDivision(sanitized) else sanitized
  {
    hide SanitizeV7, RemoveClubAndDivision, Without;
  }

  lemma NameStays()
    ensures Without(["name"], IsIdentity) == [] && Without(["name"], IsClubOrDivision) == ["name"]
  {
  }

  lemma CustomColumns(catalog: Catalog, value: Option<Json>, t: Table, version: int)
    requires IsCustom(catalog, value, t, version)
    ensures FirstOf(Without(UpgradeToV7(catalog, value, t, version).columnIds, IsIdentity), Allowed(catalog, t)) ==
              FirstOf(StoredTexts(value), Allowed(catalog, t))
  {
    SlimmedColumns(catalog, StoredTexts(value), t);
    ExtendedSquadIsDefault(catalog, value, t, version);
    NameStays();
    hide Catalog.V7DefaultColumnIds, StoredTexts, IsDefaultLike, WidthsOf, FirstOf, Without, UpgradeToV7, Allowed,
         AllowedV7, IsClubOrDivision, IsIdentity;
  }

  lemma CustomWidths(catalog: Catalog, value: Option<Json>, t: Table, version: int, id: string)
    requires IsCustom(catalog, value, t, version) && id in FirstOf(StoredTexts(value), Allowed(catalog, t))
    ensures var widths, stored := UpgradeToV7(catalog, value, t, version).widths,
                                  FiniteNumber(Property(Property(value, "widths"), id));
            (id in widths <==> stored.Some?) && (id in widths ==> widths[id] == ClampWidth(stored.value))
  {
    SlimmedColumns(catalog, StoredTexts(value), t);
    ExtendedSquadIsDefault(catalog, value, t, version);
    hide Catalog.V7DefaultColumnIds, StoredTexts, IsDefaultLike, Property, FiniteNumber, UpgradeToV7, ClampWidth;
  }

  /**
   A custom layout keeps, in order, exactly the first occurrences of the stored columns that are still
   allowed, and their widths: migrating it is sanitizing it. With only identity columns it stays empty.
   */
  lemma CustomLayoutIsKept(catalog: Catalog, value: Option<Json>, t: Table, version: int)
    requires catalog.Sound() && HasColumnArray(value) && IsCustom(catalog, value, t, version)
    ensures var l := MigrateTable(catalog, value, t, version);
            && l.columnIds == FirstOf(StoredTexts(value), Allowed(catalog, t))
            && l.columnIds == SanitizeLayout(catalog, value, t).columnIds
            && l.widths == SanitizeLayout(catalog, value, t).widths
  {
    hide Catalog.Sound, UpgradeToV7, FirstOf, Without, ClampWidth, IsDefaultLike, Catalog.V7DefaultColumnIds,
         Catalog.HistoricalV8ColumnIds, Texts, FiniteNumber, IsIdentity, Catalog.IsAllowed;
    var ids := FirstOf(StoredTexts(value), Allowed(catalog, t));
    CustomColumns(catalog, value, t, version);
    forall id | id in ids
      ensures var widths, stored := UpgradeToV7(catalog, value, t, version).widths,
                                    FiniteNumber(Property(Property(value, "widths"), id));
              (id in widths <==> stored.Some?) && (id in widths ==> ClampWidth(widths[id]) == ClampWidth(stored.value))
    {
      CustomWidths(catalog, value, t, version, id);
    }
  }

  /** A stored layout of these columns in which at most the name column was resized. */
  function Stored(ids: seq<string>, nameWidth: Option<real>): Option<Json> {
    Some(Obj(map["columnIds" := TextsToJson(ids), "widths" := StoredNameWidth(nameWidth)]))
  }

  function StoredNameWidth(nameWidth: Option<real>): Json {
    Obj(if nameWidth.Some? then map["name" := Num(Finite(nameWidth.value))] else map[])
  }

  /** The width that sanitizing finds for these columns. */
  function NameWidth(ids: seq<string>, nameWidth: Option<real>): map<string, real> {
    if nameWidth.Some? && "name" in ids then map["name" := ClampWidth(nameWidth.value)] else map[]
  }

  lemma StoredColumns(ids: seq<string>, nameWidth: Option<real>)
    requires ids != []
    ensures HasColumnArray(Stored(ids, nameWidth)) && StoredTexts(Stored(ids, nameWidth)) == ids
    ensures forall id :: FiniteNumber(Property(Property(Stored(ids, nameWidth), "widths"), id)) ==
                           if id == "name" then nameWidth else None
  {
    TextsRoundTrip(ids);
    assert Property(Stored(ids, nameWidth), "columnIds") == Some(TextsToJson(ids));
    assert Property(Stored(ids, nameWidth), "widths") == Some(StoredNameWidth(nameWidth));
  }

  lemma StoredWidths(ids: seq<string>, nameWidth: Option<real>, visible: seq<string>)
    requires ids != []
    ensures WidthsOf(visible, Property(Stored(ids, nameWidth), "widths")) == NameWidth(visible, nameWidth)
  {
    StoredColumns(ids, nameWidth);
    hide Stored, Property, FiniteNumber, ClampWidth;
  }

  /** Striking columns out of known ones makes up for the unknown ones that sanitizing drops. */
  lemma {:induction false} StrikingKnownColumns(ids: seq<string>, passes: string -> bool, struck: string -> bool)
    requires Unique(ids) && forall id :: id in ids ==> passes(id) || struck(id)
    ensures Without(FirstOf(ids, passes), struck) == Without(ids, struck)
  {
    if ids != [] {
      var n := |ids| - 1;
      StrikingKnownColumns(ids[..n], passes, struck);
      if passes(ids[n]) {
        WithoutAppend(FirstOf(ids[..n], passes), ids[n], struck);
      }
    }
  }

  lemma {:induction false} WithoutConcat(a: seq<string>, b: seq<string>, struck: string -> bool)
    ensures Without(a + b, struck) == Without(a, struck) + Without(b, struck)
  {
    if b == [] {
      assert a + b == a;
    } else {
      var n := |b| - 1;
      WithoutConcat(a, b[..n], struck);
      assert b == b[..n] + [b[n]];
      WithoutConcatOne(a, b[..n], b[n], struck);
    }
  }

  lemma WithoutConcatOne(a: seq<string>, b: seq<string>, id: string, struck: string -> bool)
    requires Without(a + b, struck) == Without(a, struck) + Without(b, struck)
    ensures Without(a + (b + [id]), struck) == Without(a, struck) + Without(b + [id], struck)
  {
    hide Without;
    WithoutAppend(a + b, id, struck);
    WithoutAppend(b, id, struck);
    assert a + b + [id] == a + (b + [id]);
  }

  lemma {:induction false} NoneStruck(ids: seq<string>, struck: string -> bool)
    requires forall id :: id in ids ==> !struck(id)
    ensures Without(ids, struck) == ids
  {
    if ids != [] {
      NoneStruck(ids[..|ids| - 1], struck);
      assert ids == ids[..|ids| - 1] + [ids[|ids| - 1]];
    }
  }

  lemma {:induction false} AllStruck(ids: seq<string>, struck: string -> bool)
    requires forall id :: id in ids ==> struck(id)
    ensures Without(ids, struck) == []
  {
    if ids != [] {
      AllStruck(ids[..|ids| - 1], struck);
    }
  }

  lemma MiddleIsStruck(a: seq<string>, b: seq<string>, c: seq<string>, struck: string -> bool)
    requires forall id :: id in a || id in c ==> !struck(id)
    requires forall id :: id in b ==> struck(id)
    ensures Without(a + b + c, struck) == a + c
  {
    hide Without;
    WithoutConcat(a + b, c, struck);
    WithoutConcat(a, b, struck);
    NoneStruck(a, struck);
    NoneStruck(c, struck);
    AllStruck(b, struck);
  }

  const SLIM_PLAYER_DEFAULTS: seq<string> := ["name", "age", "nationality", "ca", "pa", "value"]

  /** The default columns of a player table, without club and division. */
  function SlimDefaults(t: Table): seq<string>
    requires IsPlayerTable(t)
  {
    match t
    case MoneyballSearch => ["name", "age", "nationality"] + MONEYBALL_DEFAULTS[5..]
    case Search => SLIM_PLAYER_DEFAULTS
    case Squad => SLIM_PLAYER_DEFAULTS + [SUGGESTED_TRAINING]
  }

  lemma PlayerDefaultsSlim()
    ensures Without(PLAYER_DEFAULTS, IsClubOrDivision) == SLIM_PLAYER_DEFAULTS
  {
    hide Without;
    var start, middle, last := ["name", "age", "nationality"], ["club", "division"], ["ca", "pa", "value"];
    assert PLAYER_DEFAULTS == start + middle + last;
    MiddleIsStruck(start, middle, last, IsClubOrDivision);
    assert SLIM_PLAYER_DEFAULTS == start + last;
  }

  lemma MoneyballDefaultsSlim()
    ensures Without(MONEYBALL_DEFAULTS, IsClubOrDivision) == SlimDefaults(MoneyballSearch)
  {
    hide Without;
    var start, middle, last := ["name", "age", "nationality"], ["club", "division"], MONEYBALL_DEFAULTS[5..];
    assert MONEYBALL_DEFAULTS == start + middle + last;
    MiddleIsStruck(start, middle, last, IsClubOrDivision);
  }

  /** The version 7 defaults of the player tables are slim ones. */
  lemma SlimV7Defaults(catalog: Catalog, t: Table)
    requires IsPlayerTable(t)
    ensures catalog.V7DefaultColumnIds(t) == SlimDefaults(t)
    ensures Without(SlimDefaults(t), IsClubOrDivision) == SlimDefaults(t)
  {
    PlayerDefaultsSlim();
    MoneyballDefaultsSlim();
    hide Without;
    NoneStruck(SlimDefaults(t), IsClubOrDivision);
  }

  /** Without the name column they are what version 8 made of them. */
  lemma HistoricalIsSlim(catalog: Catalog, t: Table)
    ensures Without(catalog.V7DefaultColumnIds(t), IsIdentity) == catalog.HistoricalV8ColumnIds(t)
  {
    hide Without, IsIdentity;
    if IsPlayerTable(t) {
      SlimV7Defaults(catalog, t);
      SlimHasName(t);
      NameIsStruck(SlimDefaults(t));
    }
  }

  lemma SlimHasName(t: Table)
    requires IsPlayerTable(t)
    ensures SlimDefaults(t) != [] && SlimDefaults(t)[0] == "name"
    ensures forall id :: id in SlimDefaults(t)[1..] ==> !IsIdentity(id)
  {
  }

  lemma OlderSquadIsSlim(catalog: Catalog)
    ensures Without(SLIM_PLAYER_DEFAULTS, IsIdentity) + [SUGGESTED_TRAINING] == catalog.HistoricalV8ColumnIds(Squad)
  {
    hide Without, IsIdentity;
    SlimHasName(Search);
    NameIsStruck(SLIM_PLAYER_DEFAULTS);
  }

  lemma NameIsStruck(ids: seq<string>)
    requires ids != [] && ids[0] == "name" && forall id :: id in ids[1..] ==> !IsIdentity(id)
    ensures Without(ids, IsIdentity) == ids[1..]
  {
    hide Without;
    MiddleIsStruck([], ["name"], ids[1..], IsIdentity);
    assert ids == [] + ["name"] + ids[1..];
  }

  /** Version 5 took club and division out of the player tables. */
  predicate LosesClubAndDivision(t: Table, version: int) { version < 5 && IsPlayerTable(t) }

  /** The columns left of these ones by version 5. */
  function Slim(t: Table, version: int, ids: seq<string>): seq<string> {
    if LosesClubAndDivision(t, version) then Without(ids, IsClubOrDivision) else ids
  }

  /** Sanitizing a list of distinct known columns and slimming it leaves the slim columns and the name width. */
  lemma SlimmedAsStored(catalog: Catalog, t: Table, version: int, ids: seq<string>, nameWidth: Option<real>)
    requires Unique(ids) && ids != [] && (LosesClubAndDivision(t, version) ==> "name" in ids)
    requires forall id :: id in ids ==>
               catalog.IsAllowedV7(t, id) || (LosesClubAndDivision(t, version) && IsClubOrDivision(id))
    ensures var sanitized := SanitizeV7(catalog, Stored(ids, nameWidth), t, version < 5);
            && (if LosesClubAndDivision(t, version) then RemoveClubAndDivision(sanitized) else sanitized) ==
                 V7Layout(Slim(t, version, ids), NameWidth(Slim(t, version, ids), nameWidth))
  {
    hide Catalog.IsAllowedV7, Stored, Property, StoredTexts, FirstOf, Without, WidthsOf, ClampWidth, Unique,
         Catalog.V7DefaultColumnIds;
    StoredColumns(ids, nameWidth);
    var kept := FirstOf(ids, AllowedV7(catalog, t));
    StoredWidths(ids, nameWidth, kept);
    if LosesClubAndDivision(t, version) {
      assert "name" in kept && "name" in Without(kept, IsClubOrDivision);
      StrikingKnownColumns(ids, AllowedV7(catalog, t), IsClubOrDivision);
    } else {
      UniqueIsKept(ids, AllowedV7(catalog, t));
    }
  }

  /**
   The columns a table showed when it was stored untouched: those of version 7, those of the squad before it
   got Suggested Training, and those of the player tables before they lost club and division.
   */
  predicate IsUntouchedDefault(catalog: Catalog, t: Table, version: int, ids: seq<string>) {
    || ids == catalog.V7DefaultColumnIds(t)
    || (version < 7 && t.Squad? && ids == Without(PLAYER_DEFAULTS, IsClubOrDivision))
    || (version < 5 && (t.Search? || t.Squad?) && ids == PLAYER_DEFAULTS)
    || (version < 5 && t.MoneyballSearch? && ids == MONEYBALL_DEFAULTS)
  }

  /** The squad default before Suggested Training is left as it is once its name column was resized. */
  predicate IsResizedOlderSquad(t: Table, version: int, ids: seq<string>, nameWidth: Option<real>) {
    version < 7 && t.Squad? && SUGGESTED_TRAINING !in ids && nameWidth.Some?
  }

  lemma UniqueDefaults()
    ensures Unique(PLAYER_DEFAULTS) && Unique(MONEYBALL_DEFAULTS)
  {
  }

  lemma UntouchedAreKnown(catalog: Catalog, t: Table, version: int, ids: seq<string>)
    requires catalog.Sound() && IsUntouchedDefault(catalog, t, version, ids)
    ensures Unique(ids) && (IsPlayerTable(t) ==> "name" in ids)
    ensures forall id :: id in ids ==>
               catalog.IsAllowedV7(t, id) || (LosesClubAndDivision(t, version) && IsClubOrDivision(id))
  {
    hide Without, SlimDefaults, PLAYER_DEFAULTS, MONEYBALL_DEFAULTS, SLIM_PLAYER_DEFAULTS, Catalog.HistoricalV8ColumnIds,
         Catalog.V7DefaultColumnIds, Catalog.DefaultColumnIds, Catalog.IsAllowedV7, Catalog.IsAllowed, IsClubOrDivision;
    UniqueDefaults();
    PlayerDefaultsSlim();
    MoneyballDefaultsSlim();
    assert forall id :: id in catalog.V7DefaultColumnIds(t) ==> catalog.IsAllowedV7(t, id);
    if IsPlayerTable(t) {
      SlimV7Defaults(catalog, t);
      SlimIncludesPlayerDefaults(t);
    }
  }

  lemma SlimIncludesPlayerDefaults(t: Table)
    requires IsPlayerTable(t)
    ensures "name" in SlimDefaults(t) && "name" in PLAYER_DEFAULTS && "name" in MONEYBALL_DEFAULTS
    ensures !t.MoneyballSearch? ==> SLIM_PLAYER_DEFAULTS <= SlimDefaults(t)
  {
    SlimHasName(t);
    assert PLAYER_DEFAULTS[0] == "name" && MONEYBALL_DEFAULTS[0] == "name";
  }

  lemma UntouchedAreSlimmed(catalog: Catalog, t: Table, version: int, ids: seq<string>)
    requires IsUntouchedDefault(catalog, t, version, ids)
    ensures Slim(t, version, ids) ==
              if version < 7 && t.Squad? && SUGGESTED_TRAINING !in ids then SLIM_PLAYER_DEFAULTS
              else catalog.V7DefaultColumnIds(t)
  {
    hide Without;
    PlayerDefaultsSlim();
    MoneyballDefaultsSlim();
    if IsPlayerTable(t) {
      SlimV7Defaults(catalog, t);
      NoneStruck(SLIM_PLAYER_DEFAULTS, IsClubOrDivision);
    }
  }

  lemma NamesAreShown(catalog: Catalog, t: Table)
    ensures "name" in SLIM_PLAYER_DEFAULTS
    ensures t.Squad? ==>
              catalog.V7DefaultColumnIds(t) == SLIM_PLAYER_DEFAULTS + [SUGGESTED_TRAINING]
              && catalog.V7DefaultColumnIds(t) != SLIM_PLAYER_DEFAULTS
  {
    PlayerDefaultsSlim();
    hide Without;
    assert SLIM_PLAYER_DEFAULTS[0] == "name";
  }

  lemma UntouchedAreUpgraded(catalog: Catalog, t: Table, version: int, ids: seq<string>, nameWidth: Option<real>)
    requires catalog.Sound() && ids != [] && IsUntouchedDefault(catalog, t, version, ids)
    ensures UpgradeToV7(catalog, Stored(ids, nameWidth), t, version) ==
              if IsResizedOlderSquad(t, version, ids, nameWidth)
              then V7Layout(SLIM_PLAYER_DEFAULTS, NameWidth(SLIM_PLAYER_DEFAULTS, nameWidth))
              else V7Layout(catalog.V7DefaultColumnIds(t), NameWidth(catalog.V7DefaultColumnIds(t), nameWidth))
  {
    hide Catalog.Sound, SanitizeV7, RemoveClubAndDivision, Without, Stored, ClampWidth, Slim, IsUntouchedDefault,
         Catalog.V7DefaultColumnIds, Unique, SLIM_PLAYER_DEFAULTS, PLAYER_DEFAULTS, SlimDefaults, SUGGESTED_TRAINING,
         Catalog.IsAllowedV7;
    UntouchedAreKnown(catalog, t, version, ids);
    SlimmedAsStored(catalog, t, version, ids, nameWidth);
    UntouchedAreSlimmed(catalog, t, version, ids);
    PlayerDefaultsSlim();
    NamesAreShown(catalog, t);
    assert nameWidth.Some? ==> "name" in NameWidth(SLIM_PLAYER_DEFAULTS, nameWidth);
  }

  /** What migrating makes of the upgraded columns when at most the name column has a width. */
  lemma NameIsFolded(catalog: Catalog, t: Table, ids: seq<string>)
    requires catalog.Sound()
    requires ids == catalog.V7DefaultColumnIds(t) || (t.Squad? && ids == SLIM_PLAYER_DEFAULTS)
    ensures "name" !in FirstOf(Without(ids, IsIdentity), Allowed(catalog, t))
    ensures FirstOf(Without(ids, IsIdentity), Allowed(catalog, t)) +
              (if ids == catalog.V7DefaultColumnIds(t) then [] else [SUGGESTED_TRAINING])
              == catalog.HistoricalV8ColumnIds(t)
  {
    HistoricalIsSlim(catalog, t);
    OlderSquadIsSlim(catalog);
    hide Without, FirstOf, Catalog.V7DefaultColumnIds, Catalog.DefaultColumnIds, Catalog.HistoricalV8ColumnIds;
    var visible, all := Without(ids, IsIdentity), catalog.HistoricalV8ColumnIds(t);
    assert visible <= all && Unique(all);
    UniqueIsKept(visible, Allowed(catalog, t));
  }

  /**
   An untouched default of any earlier version becomes the historic version 8 default and keeps the width of
   its name column for the identity column. Only the older squad default with a resized name column misses
   Suggested Training.
   */
  lemma UntouchedDefaultsAreUpgraded(catalog: Catalog, t: Table, version: int, ids: seq<string>,
                                     nameWidth: Option<real>)
    requires catalog.Sound() && ids != [] && IsUntouchedDefault(catalog, t, version, ids)
    ensures var l := MigrateTable(catalog, Stored(ids, nameWidth), t, version);
            && l.widths == map[] && l.identityWidth == ClampIdentityWidth(nameWidth)
            && (if IsResizedOlderSquad(t, version, ids, nameWidth) then l.columnIds + [SUGGESTED_TRAINING] else l.columnIds)
                 == catalog.HistoricalV8ColumnIds(t)
  {
    hide Catalog.Sound, UpgradeToV7, Without, Stored, ClampWidth, ClampIdentityWidth, IsUntouchedDefault,
         Catalog.V7DefaultColumnIds, Catalog.HistoricalV8ColumnIds, FirstOf, Property, HasColumnArray,
         SLIM_PLAYER_DEFAULTS, SUGGESTED_TRAINING;
    NamesAreShown(catalog, t);
    UntouchedAreUpgraded(catalog, t, version, ids, nameWidth);
    StoredColumns(ids, nameWidth);
    var v7 := UpgradeToV7(catalog, Stored(ids, nameWidth), t, version);
    NameIsFolded(catalog, t, v7.columnIds);
  }

  // ---------------------------------------------------------------- all tables

  type Layouts = map<Table, Layout>

  const ALL_TABLES: set<Table> := {Search, MoneyballSearch, Squad, StaffSearch, MyStaff, StaffShortlist}

  ghost predicate AllCanonical(catalog: Catalog, layouts: Layouts) {
    layouts.Keys == ALL_TABLES && forall t :: t in layouts ==> Canonical(catalog, t, layouts[t])
  }

  function StoredLayout(persisted: Option<Json>, t: Table): Option<Json> {
    Property(Property(persisted, "layouts"), NameOf(t))
  }

  function SanitizeState(catalog: Catalog, persisted: Option<Json>): (layouts: Layouts)
    requires catalog.Sound()
    ensures AllCanonical(catalog, layouts)
  {
    map t | t in ALL_TABLES :: SanitizeLayout(catalog, StoredLayout(persisted, t), t)
  }

  function MigrateState(catalog: Catalog, persisted: Option<Json>, version: int): (layouts: Layouts)
    requires catalog.Sound()
    ensures AllCanonical(catalog, layouts)
  {
    if version >= LAYOUT_VERSION then SanitizeState(catalog, persisted)
    else map t | t in ALL_TABLES :: MigrateTable(catalog, StoredLayout(persisted, t), t, version)
  }

  const LAYOUT_VERSION: int := 8

  function Persisted(layouts: Layouts): Json {
    Obj(map["layouts" := TablesToJson(layouts)])
  }

  /** Reading storage back: an older version is migrated first, and the outcome is always sanitized. */
  function Rehydrate(catalog: Catalog, persisted: Json, version: int): Layouts
    requires catalog.Sound()
  {
    var current := if version == LAYOUT_VERSION then persisted
                   else Persisted(MigrateState(catalog, Some(persisted), version));
    SanitizeState(catalog, Some(current))
  }

  lemma NamesDiffer(a: Table, b: Table)
    ensures NameOf(a) == NameOf(b) ==> a == b
  {
  }

  function TablesToJson(layouts: Layouts): Json {
    Obj(map t | t in layouts :: NameOf(t) := ToJson(layouts[t]))
  }

  lemma StoredTable(layouts: Layouts, t: Table)
    requires t in layouts
    ensures Property(Some(TablesToJson(layouts)), NameOf(t)) == Some(ToJson(layouts[t]))
  {
    hide ToJson, NameOf;
    forall a ensures NameOf(a) == NameOf(t) ==> a == t {
      NamesDiffer(a, t);
    }
    assert NameOf(t) in TablesToJson(layouts).fields;
  }

  lemma StoredLayouts(layouts: Layouts, t: Table)
    requires layouts.Keys == ALL_TABLES
    ensures StoredLayout(Some(Persisted(layouts)), t) == Some(ToJson(layouts[t]))
  {
    assert t in ALL_TABLES;
    hide ToJson, NameOf, TablesToJson;
    StoredTable(layouts, t);
  }

  /** The layouts that survive being stored and read back are exactly the canonical ones. */
  lemma StoredStateSurvives(catalog: Catalog, layouts: Layouts)
    requires catalog.Sound() && layouts.Keys == ALL_TABLES
    ensures Rehydrate(catalog, Persisted(layouts), LAYOUT_VERSION) == layouts <==> AllCanonical(catalog, layouts)
  {
    hide Catalog.Sound, Canonical, StoredLayout, Persisted, ToJson, SanitizeLayout, NameOf;
    forall t | t in layouts
      ensures SanitizeLayout(catalog, StoredLayout(Some(Persisted(layouts)), t), t) == layouts[t]
              <==> Canonical(catalog, t, layouts[t])
    {
      StoredLayouts(layouts, t);
      RoundTripIffCanonical(catalog, t, layouts[t]);
    }
  }

  /** Sanitizing after a migration changes nothing of what the migration made. */
  lemma MigrationNeedsNoSanitizing(catalog: Catalog, persisted: Json, version: int)
    requires catalog.Sound() && version != LAYOUT_VERSION
    ensures Rehydrate(catalog, persisted, version) == MigrateState(catalog, Some(persisted), version)
  {
    hide Catalog.Sound, Canonical, Persisted, SanitizeState, MigrateState;
    StoredStateSurvives(catalog, MigrateState(catalog, Some(persisted), version));
  }

  // ---------------------------------------------------------------- the store

  function Removed(ids: seq<string>, id: string): seq<string> { Without(ids, x => x == id) }

  /** The additions: allowed, not there yet, each once. */
  function Additions(catalog: Catalog, t: Table, present: seq<string>, wanted: seq<string>): seq<string> {
    FirstOf(wanted, id => catalog.IsAllowed(t, id) && id !in present)
  }

  function IndexOf(ids: seq<string>, id: string): (k: int)
    ensures -1 <= k < |ids|
    ensures k >= 0 ==> ids[k] == id && id !in ids[..k]
    ensures k < 0 ==> id !in ids
  {
    if ids == [] then -1
    else
      var n := |ids| - 1;
      var k := IndexOf(ids[..n], id);
      assert ids == ids[..n] + [ids[n]];
      if k >= 0 then k else if ids[n] == id then n else -1
  }

  predicate IsWhole(x: Number) { x.Finite? && x.value == x.value.Floor as real }

  lemma IdentityIsNoColumn(catalog: Catalog, t: Table, l: Layout, id: string)
    requires Canonical(catalog, t, l)
    ensures IsIdentity(id) ==> id !in l.columnIds
  {
  }

  lemma ResizedIsCanonical(catalog: Catalog, t: Table, l: Layout, id: string, width: real, identityWidth: Option<real>)
    requires Canonical(catalog, t, l)
    ensures id in l.columnIds ==> Canonical(catalog, t, l.(widths := l.widths[id := ClampWidth(width)]))
    ensures Canonical(catalog, t, l.(identityWidth := ClampIdentityWidth(identityWidth)))
  {
    hide Catalog.IsAllowed, Unique, IsColumnWidth;
  }

  lemma AddedIsCanonical(catalog: Catalog, t: Table, l: Layout, wanted: seq<string>)
    requires Canonical(catalog, t, l)
    ensures var added := Additions(catalog, t, l.columnIds, wanted);
            && Canonical(catalog, t, l.(columnIds := l.columnIds + added))
            && forall id :: id in l.columnIds + added <==>
                 id in l.columnIds || (id in wanted && catalog.IsAllowed(t, id))
  {
    hide Catalog.IsAllowed;
    var added := Additions(catalog, t, l.columnIds, wanted);
    var all := l.columnIds + added;
    forall i, j | 0 <= i < j < |all| ensures all[i] != all[j] {
      if i < |l.columnIds| <= j {
        assert all[j] in added;
      }
    }
  }

  lemma RemovedIsCanonical(catalog: Catalog, t: Table, l: Layout, id: string)
    requires Canonical(catalog, t, l)
    ensures Canonical(catalog, t, Layout(Removed(l.columnIds, id), l.widths - {id}, l.identityWidth))
  {
    hide Catalog.IsAllowed;
    RemovedIsUnique(l.columnIds, id);
  }

  /** Assigning under this name sets the prototype of a record and adds no property. */
  const PROTOTYPE_NAME := "__proto__"

  /** The layout that shows these columns, with the widths they had; no width is kept under the prototype's name. */
  function Showing(l: Layout, ids: seq<string>): Layout {
    Layout(ids, map id | id in l.widths && id in ids && id != PROTOTYPE_NAME :: l.widths[id], l.identityWidth)
  }

  lemma ReplacedIsCanonical(catalog: Catalog, t: Table, l: Layout, wanted: seq<string>)
    requires Canonical(catalog, t, l)
    ensures Canonical(catalog, t, Showing(l, FirstOf(wanted, Allowed(catalog, t))))
  {
    hide Catalog.IsAllowed, Unique, IsColumnWidth;
  }

  /** Replacing a layout by the columns it shows keeps it, unless a column of the prototype's name has a width. */
  lemma ReplacedByItself(catalog: Catalog, t: Table, l: Layout)
    requires Canonical(catalog, t, l)
    ensures Showing(l, FirstOf(l.columnIds, Allowed(catalog, t))) == l <==> "__proto__" !in l.widths
  {
    hide Catalog.IsAllowed, Unique, IsColumnWidth;
    UniqueIsKept(l.columnIds, Allowed(catalog, t));
  }

  lemma DefaultIsCanonical(catalog: Catalog, t: Table, identityWidth: real)
    requires catalog.Sound() && IsIdentityWidth(identityWidth)
    ensures Canonical(catalog, t, Layout(catalog.DefaultColumnIds(t), map[], identityWidth))
  {
    hide Catalog.IsAllowed, Catalog.IsAllowedV7, Catalog.DefaultColumnIds, Catalog.HistoricalV8ColumnIds,
         Catalog.V7DefaultColumnIds, Unique;
  }

  /** An id stands at its first place exactly when it does not occur before. */
  lemma SeenBefore(ids: seq<string>, i: nat)
    requires i < |ids|
    ensures IndexOf(ids, ids[i]) == i <==> ids[i] !in ids[..i]
  {
    var k := IndexOf(ids, ids[i]);
    if k < i {
      assert ids[..i][k] == ids[i];
    }
  }

  class PlayerTableStore {
    const catalog: Catalog
    var layouts: Layouts

    constructor (catalog: Catalog)
      requires catalog.Sound()
      ensures this.catalog == catalog && Valid()
      ensures forall t :: t in layouts ==>
                layouts[t] == Layout(catalog.DefaultColumnIds(t), map[], IDENTITY_DEFAULT_WIDTH)
    {
      this.catalog := catalog;
      hide Catalog.DefaultColumnIds, Catalog.HistoricalV8ColumnIds, Catalog.IsAllowed, Unique;
      layouts := map t | t in ALL_TABLES :: Layout(catalog.DefaultColumnIds(t), map[], IDENTITY_DEFAULT_WIDTH);
    }

    ghost predicate Valid()
      reads this
    {
      catalog.Sound() && AllCanonical(catalog, layouts)
    }

    /** Every table has a canonical layout, and giving one table another one keeps the store valid. */
    lemma HasEveryTable(t: Table)
      requires Valid()
      ensures t in layouts && Canonical(catalog, t, layouts[t])
      ensures layouts[t := layouts[t]] == layouts
      ensures forall l :: Canonical(catalog, t, l) ==> AllCanonical(catalog, layouts[t := l])
    {
      assert t in ALL_TABLES;
    }

    /** Appends the allowed ids that are not shown yet, in the given order. */
    method AddColumns(t: Table, metricIds: seq<string>)
      requires Valid()
      modifies this
      ensures Valid() && old(t in layouts)
      ensures var l := old(layouts[t]);
              var added := Additions(catalog, t, l.columnIds, metricIds);
              && layouts == old(layouts)[t := l.(columnIds := l.columnIds + added)]
              && forall id :: id in l.columnIds + added <==>
                   id in l.columnIds || (id in metricIds && catalog.IsAllowed(t, id))
    {
      HasEveryTable(t);
      hide AllCanonical, Catalog.IsAllowed, Catalog.Sound, Catalog.DefaultColumnIds, FirstOf, Without, Unique, Moved;
      var l := layouts[t];
      var additions := Additions(catalog, t, l.columnIds, metricIds);
      AddedIsCanonical(catalog, t, l, metricIds);
      if additions == [] {
        assert l.columnIds + [] == l.columnIds;
        return;
      }
      layouts := layouts[t := l.(columnIds := l.columnIds + additions)];
    }

    method RemoveColumn(t: Table, metricId: string)
      requires Valid()
      modifies this
      ensures Valid() && old(t in layouts)
      ensures var l := old(layouts[t]);
              layouts == old(layouts)[t := Layout(Removed(l.columnIds, metricId), l.widths - {metricId}, l.identityWidth)]
    {
      HasEveryTable(t);
      hide AllCanonical, Catalog.IsAllowed, Catalog.Sound, Catalog.DefaultColumnIds, FirstOf, Without, Unique, Moved;
      var l := layouts[t];
      if metricId !in l.columnIds {
        RemovedIsSame(l.columnIds, metricId);
        assert l.widths - {metricId} == l.widths;
        return;
      }
      RemovedIsCanonical(catalog, t, l, metricId);
      layouts := layouts[t := Layout(Removed(l.columnIds, metricId), l.widths - {metricId}, l.identityWidth)];
    }

    /**
     Moves a column to a position. The columns stay the same, the moved one is where it was asked to be, and
     the others keep their order; an unknown column or an impossible position changes nothing.
     */
    method MoveColumn(t: Table, metricId: string, targetIndex: Number)
      requires Valid()
      modifies this
      ensures Valid() && old(t in layouts)
      ensures var l := old(layouts[t]);
              if metricId in l.columnIds && IsWhole(targetIndex)
                  && 0.0 <= targetIndex.value < |l.columnIds| as real then
                && t in layouts && layouts == old(layouts)[t := l.(columnIds := layouts[t].columnIds)]
                && Moved(l.columnIds, layouts[t].columnIds, metricId, targetIndex.value.Floor)
              else layouts == old(layouts)
    {
      HasEveryTable(t);
      hide AllCanonical, Catalog.IsAllowed, Catalog.Sound, Catalog.DefaultColumnIds, FirstOf, Without, Unique, Moved;
      var l := layouts[t];
      var currentIndex := IndexOf(l.columnIds, metricId);
      IdentityIsNoColumn(catalog, t, l, metricId);
      if IsIdentity(metricId) || currentIndex < 0 || !IsWhole(targetIndex) || targetIndex.value < 0.0
         || targetIndex.value >= |l.columnIds| as real {
        return;
      }
      var target := targetIndex.value.Floor;
      if currentIndex == target {
        MovedNowhere(l.columnIds, metricId, target);
        assert layouts == layouts[t := l];
        return;
      }
      var columnIds := Spliced(t, l, metricId, currentIndex, target);
      layouts := layouts[t := l.(columnIds := columnIds)];
    }

    method Spliced(t: Table, l: Layout, metricId: string, currentIndex: nat, target: nat)
      returns (columnIds: seq<string>)
      requires Canonical(catalog, t, l) && currentIndex < |l.columnIds| && l.columnIds[currentIndex] == metricId
      requires target < |l.columnIds|
      ensures Moved(l.columnIds, columnIds, metricId, target) && Canonical(catalog, t, l.(columnIds := columnIds))
    {
      hide Catalog.IsAllowed;
      columnIds := l.columnIds[..currentIndex] + l.columnIds[currentIndex + 1..];
      columnIds := columnIds[..target] + [metricId] + columnIds[target..];
      SplicedIsMoved(l.columnIds, columnIds, metricId, currentIndex, target);
    }

    method SetColumnWidth(t: Table, metricId: string, width: Number)
      requires Valid()
      modifies this
      ensures Valid() && old(t in layouts)
      ensures var l := old(layouts[t]);
              layouts == if metricId in l.columnIds && width.Finite?
                         then old(layouts)[t := l.(widths := l.widths[metricId := ClampWidth(width.value)])]
                         else old(layouts)
    {
      HasEveryTable(t);
      hide AllCanonical, Canonical, Catalog.Sound, ClampWidth, IsIdentity;
      var l := layouts[t];
      IdentityIsNoColumn(catalog, t, l, metricId);
      if IsIdentity(metricId) || metricId !in l.columnIds || !width.Finite? {
        return;
      }
      ResizedIsCanonical(catalog, t, l, metricId, width.value, None);
      layouts := layouts[t := l.(widths := l.widths[metricId := ClampWidth(width.value)])];
    }

    method SetIdentityWidth(t: Table, width: Number)
      requires Valid()
      modifies this
      ensures Valid() && old(t in layouts)
      ensures layouts == old(layouts)[t := old(layouts[t]).(identityWidth :=
                ClampIdentityWidth(if width.Finite? then Some(width.value) else None))]
    {
      HasEveryTable(t);
      hide AllCanonical, Canonical, Catalog.Sound, ClampIdentityWidth;
      var identityWidth := ClampIdentityWidth(if width.Finite? then Some(width.value) else None);
      ResizedIsCanonical(catalog, t, layouts[t], "", 0.0, if width.Finite? then Some(width.value) else None);
      layouts := layouts[t := layouts[t].(identityWidth := identityWidth)];
    }

    /** Shows exactly the allowed ids of the list, once each; without any, the table goes back to its default. */
    method ReplaceLayout(t: Table, nextColumnIds: seq<string>)
      requires Valid()
      modifies this
      ensures Valid() && old(t in layouts)
      ensures var l := old(layouts[t]);
              var ids := FirstOf(nextColumnIds, Allowed(catalog, t));
              layouts == old(layouts)[t :=
                if ids == [] then Layout(catalog.DefaultColumnIds(t), map[], l.identityWidth)
                else Showing(l, ids)]
    {
      HasEveryTable(t);
      hide AllCanonical, Catalog.IsAllowed, Catalog.Sound, Catalog.DefaultColumnIds, FirstOf, Without, Unique, Moved,
           PROTOTYPE_NAME;
      var l := layouts[t];
      ReplacedIsCanonical(catalog, t, l, nextColumnIds);
      DefaultIsCanonical(catalog, t, l.identityWidth);
      var deduped := Deduplicated(t, nextColumnIds);
      if deduped == [] {
        layouts := layouts[t := Layout(catalog.DefaultColumnIds(t), map[], l.identityWidth)];
        return;
      }
      var widths := WidthsFor(t, l, deduped);
      layouts := layouts[t := Layout(deduped, widths, l.identityWidth)];
    }

    method Deduplicated(t: Table, nextColumnIds: seq<string>) returns (deduped: seq<string>)
      ensures deduped == FirstOf(nextColumnIds, Allowed(catalog, t))
    {
      hide Catalog.IsAllowed;
      deduped := [];
      for i := 0 to |nextColumnIds|
        invariant deduped == FirstOf(nextColumnIds[..i], Allowed(catalog, t))
      {
        var id := nextColumnIds[i];
        assert nextColumnIds[..i + 1] == nextColumnIds[..i] + [id];
        FirstOfAppend(nextColumnIds[..i], id, Allowed(catalog, t));
        if id in deduped {
          continue;
        }
        SeenBefore(nextColumnIds, i);
        if IndexOf(nextColumnIds, id) != i {
          continue;
        }
        if !catalog.IsAllowed(t, id) {
          continue;
        }
        deduped := deduped + [id];
      }
      assert nextColumnIds[..|nextColumnIds|] == nextColumnIds;
    }

    /** The widths the kept columns had; clamping them again changes nothing. */
    method WidthsFor(t: Table, l: Layout, kept: seq<string>) returns (widths: map<string, real>)
      requires Canonical(catalog, t, l)
      ensures widths == Showing(l, kept).widths
    {
      hide Catalog.IsAllowed, Unique, PROTOTYPE_NAME;
      widths := map[];
      for i := 0 to |kept|
        invariant widths == Showing(l, kept[..i]).widths
      {
        assert kept[..i + 1] == kept[..i] + [kept[i]];
        if kept[i] in l.widths && kept[i] != PROTOTYPE_NAME {
          widths := widths[kept[i] := ClampWidth(l.widths[kept[i]])];
        }
      }
      assert kept[..|kept|] == kept;
    }

    /** Whatever the actions led to survives being stored and read back. */
    lemma SurvivesStorage()
      requires Valid()
      ensures Rehydrate(catalog, Persisted(layouts), LAYOUT_VERSION) == layouts
    {
      StoredStateSurvives(catalog, layouts);
    }
  }

  /** The same columns, the moved one at its target, the others in their old order. */
  ghost predicate Moved(before: seq<string>, after: seq<string>, id: string, target: int) {
    && multiset(after) == multiset(before)
    && 0 <= target < |after| && after[target] == id
    && Removed(after, id) == Removed(before, id)
  }

  lemma {:induction false} RemovedIsSame(ids: seq<string>, id: string)
    requires id !in ids
    ensures Removed(ids, id) == ids
  {
    if ids != [] {
      RemovedIsSame(ids[..|ids| - 1], id);
    }
  }

  lemma {:induction false} RemovedIsUnique(ids: seq<string>, id: string)
    requires Unique(ids)
    ensures Unique(Removed(ids, id))
  {
    if ids != [] {
      RemovedIsUnique(ids[..|ids| - 1], id);
    }
  }

  lemma {:induction false} RemovedFromBoth(a: seq<string>, b: seq<string>, id: string)
    ensures Removed(a + b, id) == Removed(a, id) + Removed(b, id)
  {
    if b == [] {
      assert a + b == a;
    } else {
      var n := |b| - 1;
      RemovedFromBoth(a, b[..n], id);
      assert (a + b)[..|a + b| - 1] == a + b[..n];
    }
  }

  lemma MovedNowhere(ids: seq<string>, id: string, index: nat)
    requires index < |ids| && ids[index] == id
    ensures Moved(ids, ids, id, index)
  {
  }

  lemma SplicedIsMoved(before: seq<string>, after: seq<string>, id: string, index: nat, target: nat)
    requires Unique(before) && index < |before| && before[index] == id && target < |before|
    requires var rest := before[..index] + before[index + 1..];
             after == rest[..target] + [id] + rest[target..]
    ensures Moved(before, after, id, target) && Unique(after)
    ensures forall x :: x in after <==> x in before
  {
    var rest := before[..index] + before[index + 1..];
    assert before == before[..index] + [id] + before[index + 1..];
    assert rest == rest[..target] + rest[target..];
    assert multiset(before) == multiset(rest) + multiset([id]);
    assert multiset(after) == multiset(rest[..target] + rest[target..]) + multiset([id]);
    RemovedFromBoth(before[..index] + [id], before[index + 1..], id);
    RemovedFromBoth(before[..index], [id], id);
    RemovedFromBoth(before[..index], before[index + 1..], id);
    RemovedFromBoth(rest[..target] + [id], rest[target..], id);
    RemovedFromBoth(rest[..target], [id], id);
    RemovedFromBoth(rest[..target], rest[target..], id);
    forall x ensures x in after <==> x in before {
      assert x in after <==> x in multiset(after);
    }
    UniqueByCount(before, after);
  }

  lemma UniqueByCount(before: seq<string>, after: seq<string>)
    requires Unique(before) && multiset(after) == multiset(before)
    ensures Unique(after)
  {
    forall i, j | 0 <= i < j < |after| ensures after[i] != after[j] {
      if after[i] == after[j] {
        CountTwice(after, i, j);
        CountOnce(before, after[i]);
      }
    }
  }

  lemma CountTwice(ids: seq<string>, i: nat, j: nat)
    requires i < j < |ids| && ids[i] == ids[j]
    ensures multiset(ids)[ids[i]] >= 2
  {
    assert ids == ids[..j] + [ids[j]] + ids[j + 1..];
    assert ids[i] in ids[..j];
    assert ids[i] in multiset(ids[..j]);
  }

  lemma {:induction false} CountOnce(ids: seq<string>, id: string)
    requires Unique(ids)
    ensures multiset(ids)[id] <= 1
  {
    if ids != [] {
      var n := |ids| - 1;
      CountOnce(ids[..n], id);
      assert ids == ids[..n] + [ids[n]];
      assert ids[n] == id ==> id !in ids[..n];
    }
  }
}
