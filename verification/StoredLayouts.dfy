/**
 What a stored state is read back as, said of the stored record alone: which columns a table shows, in which
 order and how wide, for every stored value and every version.
 */
module StoredLayouts {
  import opened Wrappers
  import opened TableLayouts

  // ---------------------------------------------------------------- the stored record

  /** A record, or an array that answers to names, holds this value under this name. */
  ghost predicate Holds(value: Json, name: string, field: Json) {
    || (value.Obj? && name in value.fields && value.fields[name] == field)
    || (value.Arr? && name in value.named && value.named[name] == field)
  }

  /** What is stored for a table. */
  ghost predicate HoldsTable(persisted: Json, t: Table, table: Json) {
    exists layouts ::
      && Holds(persisted, "layouts", layouts)
      && (t == Search ==> Holds(layouts, "search", table))
      && (t == MoneyballSearch ==> Holds(layouts, "moneyball-search", table))
      && (t == Squad ==> Holds(layouts, "squad", table))
      && (t == StaffSearch ==> Holds(layouts, "staff-search", table))
      && (t == MyStaff ==> Holds(layouts, "my-staff", table))
      && (t == StaffShortlist ==> Holds(layouts, "staff-shortlist", table))
  }

  ghost predicate HoldsColumns(persisted: Json, t: Table, items: seq<Json>) {
    exists table, columns ::
      HoldsTable(persisted, t, table) && Holds(table, "columnIds", columns) && columns.Arr? && columns.items == items
  }

  ghost predicate HoldsIdentityWidth(persisted: Json, t: Table, x: real) {
    exists table :: HoldsTable(persisted, t, table) && Holds(table, "identityWidth", Num(Finite(x)))
  }

  ghost predicate HoldsWidth(persisted: Json, t: Table, id: string, x: real) {
    exists table, widths ::
      HoldsTable(persisted, t, table) && Holds(table, "widths", widths) && Holds(widths, id, Num(Finite(x)))
  }

  // ---------------------------------------------------------------- columns and widths

  /** Version 7 has this column for this table. */
  predicate IsKnown(catalog: Catalog, t: Table, id: string) {
    && id != ""
    && (id == "suggested_training" ==> t == Squad)
    && (id != "suggested_training" && catalog.isValidTactic(id) ==> t == Search || t == MoneyballSearch)
    && (id != "suggested_training" && !catalog.isValidTactic(id) ==>
          && !catalog.isTactic(id)
          && (t == MoneyballSearch ==>
                catalog.isMoneyballSortable(id) || id in ["name", "age", "nationality", "club", "division", "value"])
          && (t == Search || t == Squad ==> catalog.isPlayerSortable(id)))
  }

  /** Since version 8 name, club and division are no columns any more. */
  predicate IsShowable(catalog: Catalog, t: Table, id: string) {
    IsKnown(catalog, t, id) && id !in ["name", "club", "division"]
  }

  function Known(catalog: Catalog, t: Table): string -> bool { id => IsKnown(catalog, t, id) }

  function Showable(catalog: Catalog, t: Table): string -> bool { id => IsShowable(catalog, t, id) }

  /** There is a place of the first item that the second does not precede. */
  ghost predicate ComesBefore(items: seq<Json>, first: string, second: string) {
    exists p :: 0 <= p < |items| && items[p] == Str(first) && Str(second) !in items[..p]
  }

  /** The texts among the items that pass, each once, in the order in which they first occur. */
  ghost predicate IsFilter(items: seq<Json>, passes: string -> bool, kept: seq<string>) {
    && (forall id :: id in kept <==> Str(id) in items && passes(id))
    && (forall i, j :: 0 <= i < j < |kept| ==> kept[i] != kept[j] && ComesBefore(items, kept[i], kept[j]))
  }

  function AsTexts(ids: seq<string>): seq<Json> { seq(|ids|, i requires 0 <= i < |ids| => Str(ids[i])) }

  /** The nearest whole number, halves up. */
  predicate IsNearest(x: real, n: int) { n as real - 0.5 <= x < n as real + 0.5 }

  /** Rounded to the nearest whole pixel and held within 72 and 360. */
  ghost predicate IsPixels(x: real, width: real) {
    exists n :: IsNearest(x, n) && width == if n < 72 then 72.0 else if n > 360 then 360.0 else n as real
  }

  /** Held within 240 and 360. */
  predicate IsWithin(x: real, width: real) {
    width == if x < 240.0 then 240.0 else if x > 360.0 then 360.0 else x
  }

  /** The shown columns are as wide as stored, if a finite width is stored for them. */
  ghost predicate HasStoredWidths(persisted: Json, t: Table, l: Layout) {
    && (forall id :: id in l.widths <==> id in l.columnIds && exists x :: HoldsWidth(persisted, t, id, x))
    && (forall id, x :: id in l.widths && HoldsWidth(persisted, t, id, x) ==> IsPixels(x, l.widths[id]))
  }

  // ---------------------------------------------------------------- the built-in columns

  /** The staff columns but for these. */
  ghost predicate IsStaffWithout(catalog: Catalog, without: seq<string>, ids: seq<string>) {
    IsFilter(AsTexts(catalog.staffDefaults), id => id !in without, ids)
  }

  ghost predicate IsStaffDefault(catalog: Catalog, t: Table, ids: seq<string>)
    requires t == StaffSearch || t == MyStaff || t == StaffShortlist
  {
    if t != StaffShortlist then IsStaffWithout(catalog, ["name", "club", "division"], ids)
    else
      exists rest ::
        && IsStaffWithout(catalog, ["name", "age", "nationality", "ca", "pa", "club", "division"], rest)
        && ids == ["age", "nationality", "ca", "pa", "preferred_job", "club_job", "coaching_qualifications"] + rest
  }

  /** The columns of a fresh table. */
  ghost predicate IsFresh(catalog: Catalog, t: Table, ids: seq<string>) {
    match t
    case Search => ids == ["age", "nationality", "height", "ca", "pa", "value"]
    case MoneyballSearch =>
      ids == ["age", "nationality", "height", "moneyball.minutes", "moneyball.average_rating",
              "moneyball.goals_per_90", "moneyball.assists_per_90", "moneyball.xg_per_90", "moneyball.xa_per_90"]
    case Squad => ids == ["age", "nationality", "height", "ca", "pa", "value", "suggested_training"]
    case _ => IsStaffDefault(catalog, t, ids)
  }

  /** The columns that the migration to version 8 gives a table without columns: a player's height is not among them. */
  ghost predicate IsHistoric(catalog: Catalog, t: Table, ids: seq<string>) {
    match t
    case Search => ids == ["age", "nationality", "ca", "pa", "value"]
    case MoneyballSearch =>
      ids == ["age", "nationality", "moneyball.minutes", "moneyball.average_rating",
              "moneyball.goals_per_90", "moneyball.assists_per_90", "moneyball.xg_per_90", "moneyball.xa_per_90"]
    case Squad => ids == ["age", "nationality", "ca", "pa", "value", "suggested_training"]
    case _ => IsStaffDefault(catalog, t, ids)
  }

  // ---------------------------------------------------------------- reading the record

  lemma HeldIsProperty(value: Json, name: string, field: Json)
    ensures Holds(value, name, field) <==> Property(Some(value), name) == Some(field)
  {
  }

  lemma TableIsStored(persisted: Json, t: Table, table: Json)
    ensures HoldsTable(persisted, t, table) <==> StoredLayout(Some(persisted), t) == Some(table)
  {
    var layouts := Property(Some(persisted), "layouts");
    if layouts.Some? {
      HeldIsProperty(persisted, "layouts", layouts.value);
      HeldIsProperty(layouts.value, NameOf(t), table);
    }
    forall held | Holds(persisted, "layouts", held) ensures layouts == Some(held) {
      HeldIsProperty(persisted, "layouts", held);
    }
  }

  lemma ColumnsAreStored(persisted: Json, t: Table, items: seq<Json>)
    ensures var columns := Property(StoredLayout(Some(persisted), t), "columnIds");
            HoldsColumns(persisted, t, items) <==> columns.Some? && columns.value.Arr? && columns.value.items == items
  {
    hide StoredLayout, Property, Holds, HoldsTable;
    var table := StoredLayout(Some(persisted), t);
    forall held ensures HoldsTable(persisted, t, held) <==> table == Some(held) {
      TableIsStored(persisted, t, held);
    }
    if table.Some? {
      forall columns ensures Holds(table.value, "columnIds", columns) <==> Property(table, "columnIds") == Some(columns) {
        HeldIsProperty(table.value, "columnIds", columns);
      }
    } else {
      NothingIsNone("columnIds");
    }
  }

  lemma NothingIsNone(name: string)
    ensures Property(None, name) == None
  {
  }

  lemma NumberIsFinite(value: Option<Json>, x: real)
    ensures FiniteNumber(value) == Some(x) <==> value == Some(Num(Finite(x)))
  {
  }

  lemma IdentityWidthIsStored(persisted: Json, t: Table, x: real)
    ensures HoldsIdentityWidth(persisted, t, x) <==>
            FiniteNumber(Property(StoredLayout(Some(persisted), t), "identityWidth")) == Some(x)
  {
    hide StoredLayout, Property, Holds, HoldsTable, FiniteNumber;
    var table := StoredLayout(Some(persisted), t);
    NumberIsFinite(Property(table, "identityWidth"), x);
    forall held ensures HoldsTable(persisted, t, held) <==> table == Some(held) {
      TableIsStored(persisted, t, held);
    }
    if table.Some? {
      HeldIsProperty(table.value, "identityWidth", Num(Finite(x)));
    } else {
      NothingIsNone("identityWidth");
    }
  }

  lemma WidthIsStored(persisted: Json, t: Table, id: string, x: real)
    ensures HoldsWidth(persisted, t, id, x) <==>
            FiniteNumber(Property(Property(StoredLayout(Some(persisted), t), "widths"), id)) == Some(x)
  {
    hide StoredLayout, Property, Holds, HoldsTable, FiniteNumber;
    var table := StoredLayout(Some(persisted), t);
    var widths := Property(table, "widths");
    NumberIsFinite(Property(widths, id), x);
    NothingIsNone("widths");
    NothingIsNone(id);
    forall held ensures HoldsTable(persisted, t, held) <==> table == Some(held) {
      TableIsStored(persisted, t, held);
    }
    if table.Some? {
      forall held ensures Holds(table.value, "widths", held) <==> widths == Some(held) {
        HeldIsProperty(table.value, "widths", held);
      }
      if widths.Some? {
        HeldIsProperty(widths.value, id, Num(Finite(x)));
      }
    }
  }

  lemma PixelsAreClamped(x: real, width: real)
    ensures IsPixels(x, width) <==> width == ClampWidth(x)
  {
    var n := (x + 0.5).Floor;
    assert IsNearest(x, n);
    forall m | IsNearest(x, m) ensures m == n {
    }
  }

  // ---------------------------------------------------------------- filtering

  lemma {:induction false} TextsAreItems(items: seq<Json>)
    ensures forall id :: id in Texts(items) <==> Str(id) in items
  {
    if items != [] {
      TextsAreItems(items[..|items| - 1]);
      assert items == items[..|items| - 1] + [items[|items| - 1]];
    }
  }

  /** A place in the front part is one in the whole. */
  lemma ComesBeforeStays(items: seq<Json>, n: nat, first: string, second: string)
    requires n <= |items|
    ensures ComesBefore(items[..n], first, second) ==> ComesBefore(items, first, second)
  {
    if p :| 0 <= p < n && items[..n][p] == Str(first) && Str(second) !in items[..n][..p] {
      assert items[..n][..p] == items[..p];
    }
  }

  /** One more item is kept if it is a text that passes and is new. */
  lemma {:induction false} OneMoreItem(items: seq<Json>, item: Json, passes: string -> bool, kept: seq<string>)
    requires IsFilter(items, passes, kept)
    ensures IsFilter(items + [item], passes,
                     if item.Str? && passes(item.text) && item !in items then kept + [item.text] else kept)
  {
    var all := items + [item];
    assert all[..|items|] == items;
    forall i, j | 0 <= i < j < |kept| ensures ComesBefore(all, kept[i], kept[j]) {
      ComesBeforeStays(all, |items|, kept[i], kept[j]);
    }
    if item.Str? && item !in items {
      forall i | 0 <= i < |kept| ensures ComesBefore(all, kept[i], item.text) {
        assert kept[i] in kept;
        var p :| 0 <= p < |items| && items[p] == Str(kept[i]);
        assert all[p] == items[p] && all[..p] == items[..p];
      }
    }
  }

  /** Taking the first occurrences of the texts that pass is filtering. */
  lemma {:induction false} FirstOfFilters(items: seq<Json>, passes: string -> bool, also: string -> bool)
    requires forall id :: passes(id) <==> also(id)
    ensures IsFilter(items, also, FirstOf(Texts(items), passes))
  {
    if items != [] {
      hide IsFilter, FirstOf;
      var n := |items| - 1;
      FirstOfFilters(items[..n], passes, also);
      TextsAreItems(items[..n]);
      OneMoreItem(items[..n], items[n], also, FirstOf(Texts(items[..n]), passes));
      assert items == items[..n] + [items[n]];
      if items[n].Str? {
        FirstOfAppend(Texts(items[..n]), items[n].text, passes);
      }
    }
  }

  /** There is one way to filter. */
  lemma {:induction false} FilterIsUnique(items: seq<Json>, passes: string -> bool, kept: seq<string>)
    requires IsFilter(items, passes, kept)
    ensures kept == FirstOf(Texts(items), passes)
  {
    if items == [] {
      NobodyIsNone(kept);
    } else {
      var n := |items| - 1;
      var item, m := items[n], |kept| - 1;
      assert items == items[..n] + [item];
      TextsAreItems(items[..n]);
      if item.Str? && passes(item.text) && item !in items[..n] {
        LastIsKeptLast(items, passes, kept);
        FrontIsFilter(items, passes, kept[..m], item.text);
        FilterIsUnique(items[..n], passes, kept[..m]);
        FirstOfAppend(Texts(items[..n]), item.text, passes);
        assert kept == kept[..m] + [item.text];
      } else {
        SameFront(items, passes, kept);
        FilterIsUnique(items[..n], passes, kept);
        if item.Str? {
          FirstOfAppend(Texts(items[..n]), item.text, passes);
        }
      }
    }
  }

  lemma NobodyIsNone(ids: seq<string>)
    ensures ids == [] || exists id :: id in ids
  {
    if ids != [] {
      assert ids[0] in ids;
    }
  }

  lemma LastIsKeptLast(items: seq<Json>, passes: string -> bool, kept: seq<string>)
    requires items != [] && IsFilter(items, passes, kept)
    requires var item := items[|items| - 1]; item.Str? && passes(item.text) && item !in items[..|items| - 1]
    ensures kept != [] && kept[|kept| - 1] == items[|items| - 1].text
  {
    var n := |items| - 1;
    var id := items[n].text;
    assert Str(id) in items;
    forall j | 0 <= j < |kept| && kept[j] != id ensures !ComesBefore(items, id, kept[j]) {
      assert kept[j] in kept;
      NothingFollowsLast(items, id, kept[j]);
    }
    var k :| 0 <= k < |kept| && kept[k] == id;
    assert kept[|kept| - 1] == id;
  }

  lemma NothingFollowsLast(items: seq<Json>, last: string, other: string)
    requires items != [] && items[|items| - 1] == Str(last) && Str(last) !in items[..|items| - 1]
    requires other != last && Str(other) in items
    ensures !ComesBefore(items, last, other)
  {
    var n := |items| - 1;
    forall p | 0 <= p < n ensures items[p] != Str(last) {
      assert items[..n][p] == items[p];
    }
    assert items == items[..n] + [Str(last)];
  }

  lemma ComesBeforeInFront(items: seq<Json>, first: string, second: string)
    requires items != [] && ComesBefore(items, first, second) && Str(first) in items[..|items| - 1]
    ensures ComesBefore(items[..|items| - 1], first, second)
  {
    var n := |items| - 1;
    var p :| 0 <= p < |items| && items[p] == Str(first) && Str(second) !in items[..p];
    var q :| 0 <= q < n && items[..n][q] == Str(first);
    var place := if p < n then p else q;
    assert items[..n][..place] == items[..place];
    assert items[..place] <= items[..p];
  }

  lemma FrontIsFilter(items: seq<Json>, passes: string -> bool, front: seq<string>, id: string)
    requires items != [] && items[|items| - 1] == Str(id) && Str(id) !in items[..|items| - 1] && passes(id)
    requires IsFilter(items, passes, front + [id])
    ensures IsFilter(items[..|items| - 1], passes, front)
  {
    var n, kept := |items| - 1, front + [id];
    assert items == items[..n] + [Str(id)];
    assert kept[|front|] == id;
    forall i | 0 <= i < |front| ensures front[i] == kept[i] && front[i] != id {
      assert kept[i] != kept[|front|];
    }
    forall other ensures other in front <==> Str(other) in items[..n] && passes(other) {
      assert other in kept <==> other in front || other == id;
      assert Str(other) in items <==> Str(other) in items[..n] || other == id;
    }
    forall i, j | 0 <= i < j < |front| ensures front[i] != front[j] && ComesBefore(items[..n], front[i], front[j]) {
      assert kept[i] != kept[j] && ComesBefore(items, kept[i], kept[j]);
      assert front[i] in front;
      ComesBeforeInFront(items, front[i], front[j]);
    }
  }

  lemma SameFront(items: seq<Json>, passes: string -> bool, kept: seq<string>)
    requires items != [] && IsFilter(items, passes, kept)
    requires var item := items[|items| - 1]; item.Str? && passes(item.text) ==> item in items[..|items| - 1]
    ensures IsFilter(items[..|items| - 1], passes, kept)
  {
    var n := |items| - 1;
    assert items == items[..n] + [items[n]];
    forall id ensures id in kept <==> Str(id) in items[..n] && passes(id) {
      assert Str(id) in items <==> Str(id) in items[..n] || items[n] == Str(id);
    }
    forall i, j | 0 <= i < j < |kept| ensures ComesBefore(items[..n], kept[i], kept[j]) {
      assert kept[i] in kept;
      ComesBeforeInFront(items, kept[i], kept[j]);
    }
  }

  // ---------------------------------------------------------------- built-in columns

  lemma {:induction false} WithoutFilters(ids: seq<string>, struck: string -> bool, passes: string -> bool)
    requires Unique(ids) && forall id :: struck(id) <==> !passes(id)
    ensures IsFilter(AsTexts(ids), passes, Without(ids, struck))
  {
    TextsRoundTrip(ids);
    WithoutIsFirstOf(ids, struck, passes);
    FirstOfFilters(AsTexts(ids), passes, passes);
    assert AsTexts(ids) == TextsToJson(ids).items;
  }

  lemma {:induction false} WithoutIsFirstOf(ids: seq<string>, struck: string -> bool, passes: string -> bool)
    requires Unique(ids) && forall id :: struck(id) <==> !passes(id)
    ensures Without(ids, struck) == FirstOf(ids, passes)
  {
    if ids != [] {
      WithoutIsFirstOf(ids[..|ids| - 1], struck, passes);
    }
  }

  lemma {:induction false} WithoutTwice(ids: seq<string>, one: string -> bool, two: string -> bool, all: string -> bool)
    requires forall id :: all(id) <==> one(id) || two(id)
    ensures Without(Without(ids, one), two) == Without(ids, all)
  {
    if ids != [] {
      var n := |ids| - 1;
      WithoutTwice(ids[..n], one, two, all);
      WithoutAppend(Without(ids[..n], one), ids[n], two);
    }
  }

  const SHORTLIST_START: seq<string> :=
    ["name", "age", "nationality", "club", "ca", "pa", "preferred_job", "club_job", "coaching_qualifications"]

  lemma ShortlistStart()
    ensures Without(SHORTLIST_START, IsIdentity) ==
            ["age", "nationality", "ca", "pa", "preferred_job", "club_job", "coaching_qualifications"]
  {
    hide Without;
    var name, start, club := ["name"], ["age", "nationality"], ["club"];
    var last := ["ca", "pa", "preferred_job", "club_job", "coaching_qualifications"];
    assert SHORTLIST_START == (name + start + club) + last;
    WithoutConcat(name + start + club, last, IsIdentity);
    WithoutConcat(name + start, club, IsIdentity);
    WithoutConcat(name, start, IsIdentity);
    AllStruck(name, IsIdentity);
    AllStruck(club, IsIdentity);
    NoneStruck(start, IsIdentity);
    NoneStruck(last, IsIdentity);
  }

  lemma StaffColumnsAreListed(catalog: Catalog)
    requires Unique(catalog.staffDefaults)
    ensures IsStaffDefault(catalog, StaffSearch, Without(catalog.staffDefaults, IsIdentity))
    ensures IsStaffDefault(catalog, StaffShortlist, Without(catalog.StaffShortlistDefaults(), IsIdentity))
  {
    hide Without, IsFilter;
    var staff := catalog.staffDefaults;
    var five: string -> bool := id => id in ["name", "age", "nationality", "ca", "pa"];
    var seven: string -> bool := id => id in ["name", "age", "nationality", "ca", "pa", "club", "division"];
    WithoutFilters(staff, IsIdentity, id => id !in ["name", "club", "division"]);
    WithoutFilters(staff, seven, id => id !in ["name", "age", "nationality", "ca", "pa", "club", "division"]);
    WithoutTwice(staff, five, IsIdentity, seven);
    WithoutConcat(SHORTLIST_START, Without(staff, five), IsIdentity);
    ShortlistStart();
    assert catalog.StaffShortlistDefaults() == SHORTLIST_START + Without(staff, five);
  }

  /** The built-in columns are those listed. */
  lemma DefaultsAreListed(catalog: Catalog, t: Table)
    requires catalog.Sound()
    ensures IsFresh(catalog, t, catalog.DefaultColumnIds(t))
    ensures IsHistoric(catalog, t, catalog.HistoricalV8ColumnIds(t))
  {
    hide Without, IsFilter, FirstOf, Catalog.IsAllowed, Catalog.IsAllowedV7, Unique;
    assert catalog.V7DefaultColumnIds(StaffSearch) == catalog.staffDefaults;
    StaffColumnsAreListed(catalog);
  }

  // ---------------------------------------------------------------- reading back

  /** The identity column is as wide as stored, or 280 when no finite width is stored. */
  ghost predicate HasIdentityWidth(persisted: Json, t: Table, width: real) {
    if exists x :: HoldsIdentityWidth(persisted, t, x)
    then forall x :: HoldsIdentityWidth(persisted, t, x) ==> IsWithin(x, width)
    else width == 280.0
  }

  /** Before version 8 the identity column was the name column. */
  ghost predicate HasNameWidth(persisted: Json, t: Table, width: real) {
    if exists x :: HoldsWidth(persisted, t, "name", x)
    then forall x :: HoldsWidth(persisted, t, "name", x) ==> IsWithin(x, width)
    else width == 280.0
  }

  lemma TableIsReadBack(catalog: Catalog, persisted: Json, version: int, t: Table)
    requires catalog.Sound()
    ensures t in Rehydrate(catalog, persisted, version)
    ensures Rehydrate(catalog, persisted, version)[t] ==
              var value := StoredLayout(Some(persisted), t);
              if version >= 8 then SanitizeLayout(catalog, value, t) else MigrateTable(catalog, value, t, version)
  {
    hide Catalog.Sound, SanitizeLayout, MigrateTable, StoredLayout, Canonical, Persisted;
    if version != LAYOUT_VERSION {
      MigrationNeedsNoSanitizing(catalog, persisted, version);
    }
  }

  lemma IdentityWidthIsKept(persisted: Json, t: Table)
    ensures HasIdentityWidth(persisted, t,
              ClampIdentityWidth(FiniteNumber(Property(StoredLayout(Some(persisted), t), "identityWidth"))))
  {
    hide StoredLayout, Property, FiniteNumber, HoldsIdentityWidth;
    var stored := FiniteNumber(Property(StoredLayout(Some(persisted), t), "identityWidth"));
    forall x ensures HoldsIdentityWidth(persisted, t, x) <==> stored == Some(x) {
      IdentityWidthIsStored(persisted, t, x);
    }
    assert stored.Some? ==> HoldsIdentityWidth(persisted, t, stored.value);
  }

  lemma NameWidthIsKept(persisted: Json, t: Table)
    ensures HasNameWidth(persisted, t,
              ClampIdentityWidth(FiniteNumber(Property(Property(StoredLayout(Some(persisted), t), "widths"), "name"))))
  {
    hide StoredLayout, Property, FiniteNumber, HoldsWidth;
    var stored := FiniteNumber(Property(Property(StoredLayout(Some(persisted), t), "widths"), "name"));
    forall x ensures HoldsWidth(persisted, t, "name", x) <==> stored == Some(x) {
      WidthIsStored(persisted, t, "name", x);
    }
    assert stored.Some? ==> HoldsWidth(persisted, t, "name", stored.value);
  }

  lemma WidthsAreKept(persisted: Json, t: Table, l: Layout)
    requires l.widths == WidthsOf(l.columnIds, Property(StoredLayout(Some(persisted), t), "widths"))
    ensures HasStoredWidths(persisted, t, l)
  {
    hide StoredLayout, Property, FiniteNumber, HoldsWidth, ClampWidth, IsPixels;
    var widths := Property(StoredLayout(Some(persisted), t), "widths");
    forall id, x ensures HoldsWidth(persisted, t, id, x) <==> FiniteNumber(Property(widths, id)) == Some(x) {
      WidthIsStored(persisted, t, id, x);
    }
    forall id | id in l.columnIds
      ensures (exists x :: HoldsWidth(persisted, t, id, x)) <==> FiniteNumber(Property(widths, id)).Some?
    {
      if FiniteNumber(Property(widths, id)).Some? {
        assert HoldsWidth(persisted, t, id, FiniteNumber(Property(widths, id)).value);
      }
    }
    forall id, x | id in l.widths && HoldsWidth(persisted, t, id, x) ensures IsPixels(x, l.widths[id]) {
      PixelsAreClamped(x, l.widths[id]);
    }
  }

  /** A table stored by version 8 without columns is fresh again, unless it was stored empty with a width. */
  lemma CurrentDefaults(catalog: Catalog, persisted: Json, version: int, t: Table)
    requires catalog.Sound() && version >= 8
    requires !exists items :: items != [] && HoldsColumns(persisted, t, items)
    ensures t in Rehydrate(catalog, persisted, version)
    ensures var l := Rehydrate(catalog, persisted, version)[t];
            && l.widths == map[] && HasIdentityWidth(persisted, t, l.identityWidth)
            && (if HoldsColumns(persisted, t, []) && exists x :: HoldsIdentityWidth(persisted, t, x)
                then l.columnIds == [] else IsFresh(catalog, t, l.columnIds))
  {
    hide StoredLayout, Property, FiniteNumber, HoldsColumns, HoldsIdentityWidth, Rehydrate, Catalog.Sound, Canonical,
         ClampIdentityWidth, HasIdentityWidth, IsFresh, Catalog.DefaultColumnIds;
    var value := StoredLayout(Some(persisted), t);
    TableIsReadBack(catalog, persisted, version, t);
    DefaultsAreListed(catalog, t);
    IdentityWidthIsKept(persisted, t);
    forall items ensures HoldsColumns(persisted, t, items) <==>
                         var columns := Property(value, "columnIds");
                         columns.Some? && columns.value.Arr? && columns.value.items == items
    {
      ColumnsAreStored(persisted, t, items);
    }
    forall x ensures HoldsIdentityWidth(persisted, t, x) <==> FiniteNumber(Property(value, "identityWidth")) == Some(x) {
      IdentityWidthIsStored(persisted, t, x);
    }
    var stored := FiniteNumber(Property(value, "identityWidth"));
    assert stored.Some? ==> HoldsIdentityWidth(persisted, t, stored.value);
    var columns := Property(value, "columnIds");
    assert columns.Some? && columns.value.Arr? ==> HoldsColumns(persisted, t, columns.value.items);
  }

  /** A table stored by version 8 with columns shows those of them that it still may. */
  lemma CurrentColumns(catalog: Catalog, persisted: Json, version: int, t: Table, items: seq<Json>)
    requires catalog.Sound() && version >= 8 && items != [] && HoldsColumns(persisted, t, items)
    ensures t in Rehydrate(catalog, persisted, version)
    ensures var l := Rehydrate(catalog, persisted, version)[t];
            && IsFilter(items, Showable(catalog, t), l.columnIds)
            && HasStoredWidths(persisted, t, l) && HasIdentityWidth(persisted, t, l.identityWidth)
  {
    hide StoredLayout, Property, FiniteNumber, HoldsColumns, HoldsIdentityWidth, Rehydrate, Catalog.Sound, Canonical,
         ClampIdentityWidth, HasIdentityWidth, HasStoredWidths, FirstOf, IsFilter, WidthsOf, Allowed, Showable, Texts;
    TableIsReadBack(catalog, persisted, version, t);
    IdentityWidthIsKept(persisted, t);
    ColumnsAreStored(persisted, t, items);
    WidthsAreKept(persisted, t, Rehydrate(catalog, persisted, version)[t]);
    ShowableIsAllowed(catalog, t);
    FirstOfFilters(items, Allowed(catalog, t), Showable(catalog, t));
  }

  lemma ShowableIsAllowed(catalog: Catalog, t: Table)
    ensures forall id :: Allowed(catalog, t)(id) <==> Showable(catalog, t)(id)
    ensures forall id :: AllowedV7(catalog, t)(id) <==> Known(catalog, t)(id)
  {
  }

  /** A table stored by an older version without columns gets the historic version 8 default. */
  lemma OlderDefaults(catalog: Catalog, persisted: Json, version: int, t: Table)
    requires catalog.Sound() && version < 8
    requires !exists items :: items != [] && HoldsColumns(persisted, t, items)
    ensures t in Rehydrate(catalog, persisted, version)
    ensures var l := Rehydrate(catalog, persisted, version)[t];
            IsHistoric(catalog, t, l.columnIds) && l.widths == map[] && l.identityWidth == 280.0
  {
    hide StoredLayout, Property, FiniteNumber, HoldsColumns, Rehydrate, Catalog.Sound, Canonical, UpgradeToV7,
         ClampIdentityWidth, IsHistoric, Catalog.HistoricalV8ColumnIds;
    TableIsReadBack(catalog, persisted, version, t);
    DefaultsAreListed(catalog, t);
    var columns := Property(StoredLayout(Some(persisted), t), "columnIds");
    if columns.Some? && columns.value.Arr? {
      ColumnsAreStored(persisted, t, columns.value.items);
    }
  }

  /**
   The squad as it was shown before version 7 when nobody had touched it, once club and division are taken out
   of it, as version 5 does.
   */
  ghost predicate IsUntouchedSquad(persisted: Json, t: Table, version: int, kept: seq<string>) {
    var shown := ["name", "age", "nationality", "ca", "pa", "value"];
    && t == Squad && version < 7
    && (if version < 5 then IsFilter(AsTexts(kept), id => id !in ["club", "division"], shown) else kept == shown)
    && forall id, x :: id in shown ==> !HoldsWidth(persisted, t, id, x)
  }

  /** When version 7 knows none of the stored columns, it goes on with its own. */
  lemma UnknownGiveDefaults(catalog: Catalog, value: Option<Json>, t: Table, version: int)
    requires FirstOf(StoredTexts(value), AllowedV7(catalog, t)) == []
    ensures var ids := catalog.V7DefaultColumnIds(t);
            UpgradeToV7(catalog, value, t, version) == V7Layout(ids, WidthsOf(ids, Property(value, "widths")))
  {
    hide Without, FirstOf, StoredTexts, Property, FiniteNumber, ClampWidth, AllowedV7, SlimDefaults,
         Catalog.V7DefaultColumnIds, SLIM_PLAYER_DEFAULTS, UpgradeToV7, SUGGESTED_TRAINING;
    NamesAreShown(catalog, t);
    UpgradedIsSlimmed(catalog, value, t, version);
    if IsPlayerTable(t) {
      SlimV7Defaults(catalog, t);
    }
  }

  lemma VisibleDefaults(catalog: Catalog, t: Table)
    requires catalog.Sound()
    ensures FirstOf(Without(catalog.V7DefaultColumnIds(t), IsIdentity), Allowed(catalog, t)) ==
            catalog.HistoricalV8ColumnIds(t)
    ensures forall id :: id in catalog.HistoricalV8ColumnIds(t) ==> id in catalog.V7DefaultColumnIds(t)
  {
    hide Without, FirstOf, Catalog.V7DefaultColumnIds, Catalog.DefaultColumnIds, Catalog.HistoricalV8ColumnIds;
    HistoricalIsSlim(catalog, t);
    UniqueIsKept(catalog.HistoricalV8ColumnIds(t), Allowed(catalog, t));
  }

  lemma UnknownAreReplaced(catalog: Catalog, value: Option<Json>, t: Table, version: int)
    requires catalog.Sound() && HasColumnArray(value)
    requires FirstOf(StoredTexts(value), AllowedV7(catalog, t)) == []
    ensures var l := MigrateTable(catalog, value, t, version);
            && l.columnIds == catalog.HistoricalV8ColumnIds(t)
            && l.widths == WidthsOf(l.columnIds, Property(value, "widths"))
  {
    hide Catalog.Sound, UpgradeToV7, FirstOf, Without, ClampWidth, Catalog.V7DefaultColumnIds, Property,
         Catalog.HistoricalV8ColumnIds, FiniteNumber, Catalog.IsAllowed, StoredTexts, HasColumnArray, Canonical;
    UnknownGiveDefaults(catalog, value, t, version);
    VisibleDefaults(catalog, t);
  }

  function Slimmed(catalog: Catalog, value: Option<Json>, t: Table, version: int): V7Layout {
    var sanitized := SanitizeV7(catalog, value, t, version < 5);
    if LosesClubAndDivision(t, version) then RemoveClubAndDivision(sanitized) else sanitized
  }

  lemma SlimmedIsStored(catalog: Catalog, value: Option<Json>, t: Table, version: int, kept: seq<string>)
    requires kept == FirstOf(StoredTexts(value), AllowedV7(catalog, t)) && kept != []
    ensures Slimmed(catalog, value, t, version) ==
              var ids := Slim(t, version, kept);
              if ids == [] then V7Layout(["name"], map[]) else V7Layout(ids, WidthsOf(ids, Property(value, "widths")))
  {
    hide FirstOf, StoredTexts, Property, FiniteNumber, ClampWidth, AllowedV7, Without;
    NameStays();
  }

  lemma UpgradedIsSlimmed(catalog: Catalog, value: Option<Json>, t: Table, version: int)
    ensures var slimmed := Slimmed(catalog, value, t, version);
            UpgradeToV7(catalog, value, t, version) ==
              if version < 7 && t.Squad? && slimmed == V7Layout(SLIM_PLAYER_DEFAULTS, map[])
              then V7Layout(catalog.V7DefaultColumnIds(t), map[]) else slimmed
  {
    hide SanitizeV7, RemoveClubAndDivision, Without;
    PlayerDefaultsSlim();
  }

  /** Columns that are the version 7 default are kept, too: the historic one is what version 8 still shows of them. */
  lemma DefaultLikeIsKept(catalog: Catalog, value: Option<Json>, t: Table, version: int, kept: seq<string>)
    requires catalog.Sound() && kept == FirstOf(StoredTexts(value), AllowedV7(catalog, t)) && kept != []
    requires Slimmed(catalog, value, t, version) == V7Layout(catalog.V7DefaultColumnIds(t), map[])
    ensures var ids := FirstOf(StoredTexts(value), Allowed(catalog, t));
            ids == catalog.HistoricalV8ColumnIds(t) && WidthsOf(ids, Property(value, "widths")) == map[]
  {
    hide Catalog.Sound, FirstOf, Without, Catalog.V7DefaultColumnIds, Property, Slimmed, Catalog.HistoricalV8ColumnIds,
         FiniteNumber, StoredTexts, ClampWidth;
    SlimmedIsStored(catalog, value, t, version, kept);
    SlimmedColumns(catalog, StoredTexts(value), t);
    VisibleDefaults(catalog, t);
    DefaultHasMore(catalog, t);
    var widths := Property(value, "widths");
    forall id | id in catalog.HistoricalV8ColumnIds(t) ensures FiniteNumber(Property(widths, id)).None? {
      assert id !in WidthsOf(catalog.V7DefaultColumnIds(t), widths);
    }
  }

  lemma DefaultHasMore(catalog: Catalog, t: Table)
    ensures IsPlayerTable(t) ==> catalog.V7DefaultColumnIds(t) != ["name"]
  {
    hide Without;
    if IsPlayerTable(t) {
      SlimV7Defaults(catalog, t);
    }
  }

  lemma KnownAreKept(catalog: Catalog, value: Option<Json>, t: Table, version: int, kept: seq<string>)
    requires catalog.Sound() && HasColumnArray(value)
    requires kept == FirstOf(StoredTexts(value), AllowedV7(catalog, t)) && kept != []
    ensures var l, slimmed := MigrateTable(catalog, value, t, version), Slimmed(catalog, value, t, version);
            if version < 7 && t.Squad? && slimmed == V7Layout(SLIM_PLAYER_DEFAULTS, map[])
            then l.columnIds == catalog.HistoricalV8ColumnIds(t) && l.widths == map[]
            else l.columnIds == FirstOf(StoredTexts(value), Allowed(catalog, t))
                 && l.widths == WidthsOf(l.columnIds, Property(value, "widths"))
  {
    hide Catalog.Sound, FirstOf, Without, Catalog.V7DefaultColumnIds, Property, Slimmed, Catalog.HistoricalV8ColumnIds,
         FiniteNumber, StoredTexts, ClampWidth, UpgradeToV7, Canonical, WidthsOf, SLIM_PLAYER_DEFAULTS;
    UpgradedIsSlimmed(catalog, value, t, version);
    if !IsDefaultLike(catalog, t, UpgradeToV7(catalog, value, t, version)) {
      CustomLayoutIsKept(catalog, value, t, version);
    } else if Slimmed(catalog, value, t, version) == V7Layout(catalog.V7DefaultColumnIds(t), map[]) {
      DefaultLikeIsKept(catalog, value, t, version, kept);
    }
  }

  lemma UntouchedSquadIsSlimmed(catalog: Catalog, persisted: Json, t: Table, version: int, kept: seq<string>)
    requires kept == FirstOf(StoredTexts(StoredLayout(Some(persisted), t)), AllowedV7(catalog, t)) && kept != []
    ensures IsUntouchedSquad(persisted, t, version, kept) <==>
            && version < 7 && t == Squad
            && Slimmed(catalog, StoredLayout(Some(persisted), t), t, version) == V7Layout(SLIM_PLAYER_DEFAULTS, map[])
  {
    hide FirstOf, StoredTexts, Property, FiniteNumber, ClampWidth, AllowedV7, Without, Slimmed, StoredLayout, HoldsWidth,
         IsFilter, Texts;
    var value, shown := StoredLayout(Some(persisted), t), SLIM_PLAYER_DEFAULTS;
    var widths := Property(value, "widths");
    SlimmedIsStored(catalog, value, t, version, kept);
    SlimIsFilter(kept, shown);
    forall id, x ensures HoldsWidth(persisted, t, id, x) <==> FiniteNumber(Property(widths, id)) == Some(x) {
      WidthIsStored(persisted, t, id, x);
    }
    NoWidths(persisted, t, shown);
  }

  lemma SlimIsFilter(kept: seq<string>, shown: seq<string>)
    requires Unique(kept)
    ensures IsFilter(AsTexts(kept), id => id !in ["club", "division"], shown) <==>
            Without(kept, IsClubOrDivision) == shown
  {
    hide Without, IsFilter, FirstOf, Texts, AsTexts;
    var passes: string -> bool := id => id !in ["club", "division"];
    WithoutFilters(kept, IsClubOrDivision, passes);
    FilterIsUnique(AsTexts(kept), passes, Without(kept, IsClubOrDivision));
    if IsFilter(AsTexts(kept), passes, shown) {
      FilterIsUnique(AsTexts(kept), passes, shown);
    }
  }

  lemma NoWidths(persisted: Json, t: Table, ids: seq<string>)
    ensures (forall id, x :: id in ids ==> !HoldsWidth(persisted, t, id, x)) <==>
            WidthsOf(ids, Property(StoredLayout(Some(persisted), t), "widths")) == map[]
  {
    hide StoredLayout, Property, FiniteNumber, HoldsWidth, ClampWidth;
    var widths := Property(StoredLayout(Some(persisted), t), "widths");
    forall id, x ensures HoldsWidth(persisted, t, id, x) <==> FiniteNumber(Property(widths, id)) == Some(x) {
      WidthIsStored(persisted, t, id, x);
    }
    forall id | id in ids && FiniteNumber(Property(widths, id)).Some?
      ensures exists x :: HoldsWidth(persisted, t, id, x)
    {
      assert HoldsWidth(persisted, t, id, FiniteNumber(Property(widths, id)).value);
    }
    if id, x :| id in ids && HoldsWidth(persisted, t, id, x) {
      assert id in WidthsOf(ids, widths);
    }
  }

  /**
   A table stored by an older version with columns shows, as one stored by version 8 does, those of them that it
   still may, as wide as they were, and the width of the name column becomes that of the identity column. There
   are two exceptions: when version 7 knew none of the columns, the table gets the historic default, and an
   untouched squad gets Suggested Training.
   */
  lemma OlderColumns(catalog: Catalog, persisted: Json, version: int, t: Table, items: seq<Json>, kept: seq<string>)
    requires catalog.Sound() && version < 8 && items != [] && HoldsColumns(persisted, t, items)
    requires IsFilter(items, Known(catalog, t), kept)
    ensures t in Rehydrate(catalog, persisted, version)
    ensures var l := Rehydrate(catalog, persisted, version)[t];
            && HasNameWidth(persisted, t, l.identityWidth)
            && (if IsUntouchedSquad(persisted, t, version, kept) then
                  l.columnIds == ["age", "nationality", "ca", "pa", "value", "suggested_training"] && l.widths == map[]
                else
                  && HasStoredWidths(persisted, t, l)
                  && if kept == [] then IsHistoric(catalog, t, l.columnIds)
                     else IsFilter(items, Showable(catalog, t), l.columnIds))
  {
    hide StoredLayout, Property, FiniteNumber, HoldsColumns, Rehydrate, Catalog.Sound, Canonical, IsUntouchedSquad,
         ClampIdentityWidth, HasNameWidth, HasStoredWidths, FirstOf, IsFilter, WidthsOf, Allowed, AllowedV7, Showable,
         Known, Texts, Slimmed, IsHistoric, UpgradeToV7, ClampWidth;
    var value := StoredLayout(Some(persisted), t);
    TableIsReadBack(catalog, persisted, version, t);
    ColumnsAreStored(persisted, t, items);
    DefaultsAreListed(catalog, t);
    NameWidthIsKept(persisted, t);
    ShowableIsAllowed(catalog, t);
    FirstOfFilters(items, AllowedV7(catalog, t), Known(catalog, t));
    FilterIsUnique(items, Known(catalog, t), kept);
    FilterIsUnique(items, Known(catalog, t), FirstOf(Texts(items), AllowedV7(catalog, t)));
    var l := Rehydrate(catalog, persisted, version)[t];
    if kept == [] {
      UnknownAreReplaced(catalog, value, t, version);
      NoSquadOfNothing(persisted, t, version);
      WidthsAreKept(persisted, t, l);
    } else {
      KnownAreKept(catalog, value, t, version, kept);
      UntouchedSquadIsSlimmed(catalog, persisted, t, version, kept);
      FirstOfFilters(items, Allowed(catalog, t), Showable(catalog, t));
      if !IsUntouchedSquad(persisted, t, version, kept) {
        WidthsAreKept(persisted, t, l);
      } else {
        SquadIsHistoric(catalog, l.columnIds);
      }
    }
  }

  lemma SquadIsHistoric(catalog: Catalog, ids: seq<string>)
    requires IsHistoric(catalog, Squad, ids)
    ensures ids == ["age", "nationality", "ca", "pa", "value", "suggested_training"]
  {
  }

  lemma NoSquadOfNothing(persisted: Json, t: Table, version: int)
    ensures !IsUntouchedSquad(persisted, t, version, [])
  {
    hide HoldsWidth, ComesBefore;
    var shown := ["name", "age", "nationality", "ca", "pa", "value"];
    assert shown[0] in shown && Str(shown[0]) !in AsTexts([]);
  }
}
