/** When moving flat keys into sections keeps what a configuration file means. */
module MigrationProofs {
  import opened DiffModel
  import opened Migration

  /** The value written under a flat key. */
  function LegacyValue(root: Root, flat: FlatKey): Option<Value> {
    if IsLegacy(root, flat) then Some(root[RootOf(flat)].value) else None
  }

  // ---- What the loader accepts ------------------------------------------------------------

  /** The keys a section owns; sections no flat key moves to are not looked into. */
  predicate Owns(place: Place) {
    match place.section
    case General => place.key in {KVcs, KWatch, KExcludeUntracked, KPromptSave}
    case View => place.key in {KMode, KShowSidebar, KLineNumbers, KWrapLines, KHunkHeaders, KAgentNotes, KTransparent,
      KColorMoved, KCopyDecorations}
    case Theme => place.key in {KName, KCustom}
    case Review => place.key in {KMessage, KTestsLast, KPatterns}
    case Ask => place.key in {KEnabled, KProvider, KModel, KEffort, KTimeout}
    case Map => place.key in {KEnabled, OtherKey("backend"), KProvider, KModel, KEffort, KTimeout, KStartOn, KServer,
      KTokenFile}
    case OtherSection(_) => true
  }

  /** A value of the kind its key takes. */
  predicate Typed(place: Place, value: Value) {
    if place.section.OtherSection? then true
    else if place.key == KPatterns then value.Patterns?
    else if place.key == KCustom then value.Palette?
    else value.Text?
  }

  /** Sections may be written as tables or inline. */
  predicate IsSection(item: Item) { item.Table? || (item.Leaf? && item.value.InlineTable?) }

  /** The files the loader reads: known keys with values of their kind; anything else is an error. */
  ghost predicate Accepted(root: Root) {
    && Flat(ThemeName) !in root
    && (forall flat: FlatKey :: Flat(flat) in root ==>
         root[Flat(flat)].Leaf? && Typed(Target(flat), root[Flat(flat)].value))
    && (forall name: SectionName :: Section(name) in root ==>
          IsSection(root[Section(name)])
            || (name == Theme && root[Section(name)].Leaf? && root[Section(name)].value.Text?))
    && (forall place: Place :: FieldValue(root, place).Some? ==>
         Owns(place) && Typed(place, FieldValue(root, place).value))
    && (CustomTheme in root ==> AsField(root[CustomTheme]).Palette?)
  }

  predicate Distinct(keys: seq<FlatKey>) { forall i, j :: 0 <= i < j < |keys| ==> keys[i] != keys[j] }

  // ---- One move ---------------------------------------------------------------------------

  /** Only the two spellings of the transparent background share a place. */
  lemma TargetsDiffer(a: FlatKey, b: FlatKey)
    requires a != b && Target(a) == Target(b)
    ensures {a, b} == {TransparentSnake, TransparentCamel}
  {
  }

  lemma MoveKeepsOthers(root: Root, flat: FlatKey, other: FlatKey)
    requires IsLegacy(root, flat) && flat != other
    ensures LegacyValue(MoveKey(root, flat), other) == LegacyValue(root, other)
    ensures FlatValue(MoveKey(root, flat), other) == FlatValue(root, other)
  {
    hide Target;
    ThemeStays(flat);
  }

  lemma MoveTakesKey(root: Root, flat: FlatKey)
    requires IsLegacy(root, flat)
    ensures !IsLegacy(MoveKey(root, flat), flat)
  {
    assert Target(flat).section == Theme ==> flat == ThemeName;
  }

  lemma ThemeStays(flat: FlatKey)
    ensures Target(flat).section == Theme <==> flat == ThemeName
    ensures flat == ThemeName ==> Target(flat) == Place(Theme, KName)
  {
  }

  /** Moving into a table sets the key unless it is there; an inline section is left alone. */
  lemma MoveSetsField(root: Root, flat: FlatKey, place: Place)
    requires IsLegacy(root, flat) && place.section != Theme
    ensures var moved := MoveKey(root, flat);
      && (SectionItem(moved, place.section).Table? <==> SectionItem(root, place.section).Table?)
      && FieldValue(moved, place) ==
           (if place == Target(flat) && FieldValue(root, place).None? && SectionItem(root, place.section).Table?
            then LegacyValue(root, flat) else FieldValue(root, place))
  {
    hide Target;
    ThemeStays(flat);
    var rest, moved := root - {RootOf(flat)}, MoveKey(root, flat);
    assert SectionItem(rest, place.section) == SectionItem(root, place.section);
    if place.section == Target(flat).section && CanMove(root, flat) {
      assert SectionItem(moved, place.section) == moved[Section(place.section)];
    } else {
      assert SectionItem(moved, place.section) == SectionItem(root, place.section);
    }
  }

  /** Whether moving a key finds a table. The theme's name always does: it is what it moves out of. */
  lemma CanMoveIff(root: Root, flat: FlatKey)
    ensures CanMove(root, flat) <==> flat == ThemeName || SectionItem(root, Target(flat).section).Table?
  {
    hide Target;
    ThemeStays(flat);
  }

  lemma MoveTheme(root: Root, flat: FlatKey)
    requires IsLegacy(root, flat)
    ensures SectionItem(MoveKey(root, flat), Theme) ==
      if flat == ThemeName then Table(map[KName := root[Section(Theme)].value]) else SectionItem(root, Theme)
  {
    hide Target;
    ThemeStays(flat);
  }

  // ---- All moves --------------------------------------------------------------------------

  /** What the first of the keys that go to a place would put there. */
  function FirstValue(root: Root, keys: seq<FlatKey>, place: Place): Option<Value> {
    if keys == [] then None else
      var before, last := FirstValue(root, keys[..|keys| - 1], place), keys[|keys| - 1];
      if before.Some? || Target(last) != place then before else LegacyValue(root, last)
  }

  lemma {:induction false} LaterKeysStay(root: Root, keys: seq<FlatKey>, other: FlatKey)
    requires other !in keys
    ensures LegacyValue(MoveKeys(root, keys), other) == LegacyValue(root, other)
    ensures FlatValue(MoveKeys(root, keys), other) == FlatValue(root, other)
  {
    if keys != [] {
      hide LegacyValue, FlatValue, MoveKey;
      var before, flat := MoveKeys(root, keys[..|keys| - 1]), keys[|keys| - 1];
      LaterKeysStay(root, keys[..|keys| - 1], other);
      if IsLegacy(before, flat) { MoveKeepsOthers(before, flat, other); }
    }
  }

  lemma {:induction false} KeysAreTaken(root: Root, keys: seq<FlatKey>, flat: FlatKey)
    requires flat in keys
    ensures !IsLegacy(MoveKeys(root, keys), flat)
  {
    hide MoveKey, IsLegacy;
    var before, last := MoveKeys(root, keys[..|keys| - 1]), keys[|keys| - 1];
    assert keys == keys[..|keys| - 1] + [last];
    if flat in keys[..|keys| - 1] {
      KeysAreTaken(root, keys[..|keys| - 1], flat);
    }
    if IsLegacy(before, last) {
      if flat == last { MoveTakesKey(before, last); } else { StillTaken(before, last, flat); }
    }
  }

  lemma StillTaken(root: Root, flat: FlatKey, other: FlatKey)
    requires IsLegacy(root, flat) && flat != other && !IsLegacy(root, other)
    ensures !IsLegacy(MoveKey(root, flat), other)
  {
    hide MoveKey;
    MoveKeepsOthers(root, flat, other);
    assert LegacyValue(root, other).None?;
  }

  /** Every place outside the theme keeps its value or, in a table, gets the first one moved there. */
  lemma {:induction false} AfterMoves(root: Root, keys: seq<FlatKey>, place: Place)
    requires Distinct(keys) && place.section != Theme
    ensures SectionItem(MoveKeys(root, keys), place.section).Table? <==> SectionItem(root, place.section).Table?
    ensures FieldValue(MoveKeys(root, keys), place) ==
      (if FieldValue(root, place).Some? || !SectionItem(root, place.section).Table? then FieldValue(root, place)
       else FirstValue(root, keys, place))
  {
    if keys != [] {
      hide Target, FieldValue, MoveKey, LegacyValue, SectionItem, IsLegacy;
      var front, last := keys[..|keys| - 1], keys[|keys| - 1];
      AfterMoves(root, front, place);
      var before := MoveKeys(root, front);
      LaterKeysStay(root, front, last);
      LegacyIff(before, last);
      LegacyIff(root, last);
      if IsLegacy(before, last) { MoveSetsField(before, last, place); }
    }
  }

  lemma LegacyIff(root: Root, flat: FlatKey)
    ensures IsLegacy(root, flat) <==> LegacyValue(root, flat).Some?
  {
  }

  /** A theme that is a value becomes the name in its section, whatever kind of value it is. */
  lemma {:induction false} AfterMovesTheme(root: Root, keys: seq<FlatKey>)
    requires Distinct(keys)
    ensures SectionItem(MoveKeys(root, keys), Theme) ==
      if ThemeName in keys && IsLegacy(root, ThemeName) then Table(map[KName := root[Section(Theme)].value])
      else SectionItem(root, Theme)
    ensures CustomTheme in MoveKeys(root, keys) <==> CustomTheme in root
    ensures CustomTheme in root ==> MoveKeys(root, keys)[CustomTheme] == root[CustomTheme]
  {
    if keys != [] {
      hide Target;
      var front, last := keys[..|keys| - 1], keys[|keys| - 1];
      assert keys == front + [last];
      AfterMovesTheme(root, front);
      var before := MoveKeys(root, front);
      LaterKeysStay(root, front, last);
      if IsLegacy(before, last) { MoveTheme(before, last); }
    }
  }

  /** Keys that are not there to begin with are never moved. */
  lemma {:induction false} OnlyLegacyMoves(root: Root, keys: seq<FlatKey>)
    requires Distinct(keys)
    ensures MoveKeys(root, Legacy(root, keys)) == MoveKeys(root, keys)
    ensures forall k :: k in Legacy(root, keys) <==> k in keys && IsLegacy(root, k)
    ensures Distinct(Legacy(root, keys))
  {
    if keys != [] {
      hide MoveKey, IsLegacy;
      var front, last := keys[..|keys| - 1], keys[|keys| - 1];
      assert keys == front + [last];
      OnlyLegacyMoves(root, front);
      LaterKeysStay(root, front, last);
      LegacyIff(root, last);
      LegacyIff(MoveKeys(root, front), last);
      var before := Legacy(root, front);
      assert (before + [last])[..|before|] == before && before + [] == before;
    }
  }

  // ---- The table of moves -----------------------------------------------------------------

  function Rank(flat: FlatKey): nat {
    match flat
    case Mode => 0 case ShowSidebar => 1 case LineNumbers => 2 case WrapLines => 3 case HunkHeaders => 4
    case AgentNotes => 5 case TransparentSnake => 6 case TransparentCamel => 7 case ColorMoved => 8
    case CopyDecorations => 9 case Vcs => 10 case Watch => 11 case ExcludeUntracked => 12 case PromptSave => 13
    case ThemeName => 14 case ReviewMessage => 15 case TestsLast => 16 case TestFilePatterns => 17
    case AskEnabled => 18 case AskProvider => 19 case AskModel => 20 case AskThinking => 21 case AskTimeout => 22
    case AiSummaries => 23 case StartOnMap => 24 case MapServer => 25 case MapTokenFile => 26
  }

  lemma MovesAreRanked()
    ensures |MOVES| == 27
    ensures forall i :: 0 <= i < 27 ==> Rank(MOVES[i]) == i
    ensures forall flat: FlatKey :: Rank(flat) < 27 && MOVES[Rank(flat)] == flat
    ensures Distinct(MOVES)
  {
  }

  /** Keys after the first `n` that do not go to a place do not change what it gets. */
  lemma {:induction false} FirstStays(root: Root, keys: seq<FlatKey>, n: nat, place: Place)
    requires n <= |keys| && forall i :: n <= i < |keys| ==> Target(keys[i]) != place
    ensures FirstValue(root, keys, place) == FirstValue(root, keys[..n], place)
    decreases |keys|
  {
    if n == |keys| {
      assert keys[..n] == keys;
    } else {
      FirstStays(root, keys[..|keys| - 1], n, place);
      assert keys[..|keys| - 1][..n] == keys[..n];
    }
  }

  lemma {:induction false} FirstIsNone(root: Root, keys: seq<FlatKey>, place: Place)
    requires forall i :: 0 <= i < |keys| ==> Target(keys[i]) != place
    ensures FirstValue(root, keys, place) == None
  {
    if keys != [] { FirstIsNone(root, keys[..|keys| - 1], place); }
  }

  /** A place with one spelling gets that key's value; the transparent background's gets the snake spelling's first. */
  lemma FirstOfMoves(root: Root, flat: FlatKey)
    ensures FirstValue(root, MOVES, Target(flat)) ==
      if Target(flat) != Target(TransparentSnake) then LegacyValue(root, flat)
      else if LegacyValue(root, TransparentSnake).Some? then LegacyValue(root, TransparentSnake)
      else LegacyValue(root, TransparentCamel)
  {
    hide MOVES, LegacyValue, Target, FirstValue;
    MovesAreRanked();
    var place, n := Target(flat), Rank(if flat == TransparentCamel then TransparentSnake else flat);
    forall i | 0 <= i < 27 && i != n && MOVES[i] != TransparentCamel ensures Target(MOVES[i]) != place {
      RankOf(MOVES[i]);
      NotTarget(MOVES[i], flat);
    }
    CamelTarget();
    RankOf(TransparentCamel);
    RankOf(TransparentSnake);
    FirstIsNone(root, MOVES[..n], place);
    FirstStep(root, MOVES, n, place);
    if flat == TransparentSnake || flat == TransparentCamel {
      FirstStep(root, MOVES, n + 1, place);
      FirstStays(root, MOVES, n + 2, place);
    } else {
      NotTarget(TransparentCamel, flat);
      FirstStays(root, MOVES, n + 1, place);
    }
  }

  lemma RankOf(flat: FlatKey)
    ensures flat == TransparentCamel <==> Rank(flat) == 7
    ensures flat == TransparentSnake <==> Rank(flat) == 6
  {
  }

  lemma CamelTarget()
    ensures Target(TransparentCamel) == Target(TransparentSnake)
  {
  }

  lemma NotTarget(other: FlatKey, flat: FlatKey)
    requires other != flat && {other, flat} != {TransparentSnake, TransparentCamel}
    ensures Target(other) != Target(flat)
  {
    if Target(other) == Target(flat) { TargetsDiffer(other, flat); }
  }

  lemma FirstStep(root: Root, keys: seq<FlatKey>, n: nat, place: Place)
    requires n < |keys|
    ensures FirstValue(root, keys[..n + 1], place) ==
      (if FirstValue(root, keys[..n], place).Some? || Target(keys[n]) != place then FirstValue(root, keys[..n], place)
       else LegacyValue(root, keys[n]))
  {
    assert keys[..n + 1][..n] == keys[..n];
  }

  // ---- The migrated file ------------------------------------------------------------------

  function WithoutFlat(root: Root): Root { MoveKeys(root, Legacy(root, MOVES)) }

  lemma MovedIsMoved(root: Root, flat: FlatKey, place: Place)
    requires place.section != Theme
    ensures !IsLegacy(WithoutFlat(root), flat)
    ensures FieldValue(WithoutFlat(root), place) ==
      (if FieldValue(root, place).Some? || !SectionItem(root, place.section).Table? then FieldValue(root, place)
       else FirstValue(root, MOVES, place))
    ensures SectionItem(WithoutFlat(root), place.section).Table? <==> SectionItem(root, place.section).Table?
  {
    hide MOVES, LegacyValue, Target, FieldValue, IsLegacy, SectionItem, FirstValue;
    MovesAreRanked();
    OnlyLegacyMoves(root, MOVES);
    assert MOVES[Rank(flat)] == flat;
    KeysAreTaken(root, MOVES, flat);
    AfterMoves(root, MOVES, place);
  }

  lemma MovedTheme(root: Root)
    ensures SectionItem(WithoutFlat(root), Theme) ==
      if IsLegacy(root, ThemeName) then Table(map[KName := root[Section(Theme)].value]) else SectionItem(root, Theme)
    ensures CustomTheme in WithoutFlat(root) <==> CustomTheme in root
    ensures CustomTheme in root ==> WithoutFlat(root)[CustomTheme] == root[CustomTheme]
  {
    hide MOVES, SectionItem, IsLegacy;
    MovesAreRanked();
    OnlyLegacyMoves(root, MOVES);
    assert MOVES[Rank(ThemeName)] == ThemeName;
    AfterMovesTheme(root, MOVES);
  }

  /** Moving the custom theme touches the theme alone. */
  lemma CustomMoveKeeps(root: Root, place: Place, flat: FlatKey)
    requires place.section != Theme && flat != ThemeName
    ensures FlatValue(MoveCustom(root), flat) == FlatValue(root, flat)
    ensures FieldValue(MoveCustom(root), place) == FieldValue(root, place)
    ensures SectionItem(MoveCustom(root), place.section) == SectionItem(root, place.section)
  {
  }

  lemma NoFlatKeyIsLeft(root: Root, flat: FlatKey)
    requires flat != ThemeName && !IsLegacy(root, flat)
    ensures FlatValue(root, flat) == None
  {
  }

  /** What a place outside the theme holds after the move, and that the flat key is gone. */
  lemma MigratedField(root: Root, flat: FlatKey, place: Place)
    requires place.section != Theme && flat != ThemeName
    ensures FlatValue(Migrated(root), flat) == None
    ensures FieldValue(Migrated(root), place) ==
      (if FieldValue(root, place).Some? || !SectionItem(root, place.section).Table? then FieldValue(root, place)
       else FirstValue(root, MOVES, place))
  {
    hide MOVES, FieldValue, FirstValue, MoveCustom, SectionItem, IsLegacy;
    MovedIsMoved(root, flat, place);
    NoFlatKeyIsLeft(WithoutFlat(root), flat);
    CustomMoveKeeps(WithoutFlat(root), place, flat);
  }

  /** What the theme's section is after the keys have moved. */
  function ThemeFields(root: Root): map<SectionKey, Value> {
    match SectionItem(root, Theme)
    case Leaf(value) => map[KName := value]
    case Table(fields) => fields
    case Colors(_) => map[]
  }

  lemma MigratedTheme(root: Root)
    requires Accepted(root)
    ensures CustomTheme in Migrated(root) <==> CustomTheme in root && KCustom in ThemeFields(root)
    ensures CustomTheme in Migrated(root) ==> Migrated(root)[CustomTheme] == root[CustomTheme]
    ensures SectionItem(Migrated(root), Theme) == Table(
      if CustomTheme in root && KCustom !in ThemeFields(root)
        then ThemeFields(root)[KCustom := AsField(root[CustomTheme])]
      else ThemeFields(root))
  {
    hide MOVES, MoveKeys, Accepted;
    MovedTheme(root);
    ThemeIsSection(root);
  }

  lemma ThemeIsSection(root: Root)
    requires Accepted(root)
    ensures var item := SectionItem(root, Theme);
      item.Table? || (item.Leaf? && (item.value.Text? || item.value.InlineTable?))
    ensures IsLegacy(root, ThemeName) <==> SectionItem(root, Theme).Leaf?
  {
  }

  // ---- What is kept and what is lost ------------------------------------------------------

  /** The whole section as a value, `theme = {..}`: moving takes it for the theme's name. */
  predicate InlineTheme(root: Root) { SectionItem(root, Theme).Leaf? && SectionItem(root, Theme).value.InlineTable? }

  /** An inline theme that says something the loader uses. */
  predicate InlineThemeIsRead(root: Root) {
    InlineTheme(root)
    && (KName in SectionItem(root, Theme).value.inlined
        || (KCustom in SectionItem(root, Theme).value.inlined && CustomTheme !in root))
  }

  /** A flat key whose section is written inline and does not have it: it is removed and put nowhere. */
  predicate Lost(root: Root, flat: FlatKey) {
    && flat != ThemeName && FlatValue(root, flat).Some? && FlatValue(root, flat).value != Patterns([])
    && !SectionItem(root, Target(flat).section).Table? && FieldValue(root, Target(flat)).None?
  }

  predicate LosesKey(root: Root) { exists flat: FlatKey :: Lost(root, flat) }

  /** Both spellings of the transparent background, disagreeing, and no section key to settle it. */
  predicate TransparentClash(root: Root) {
    && FlatText(root, TransparentSnake).Some? && FlatText(root, TransparentCamel).Some?
    && FlatText(root, TransparentSnake) != FlatText(root, TransparentCamel)
    && FieldText(root, View, KTransparent).None?
  }

  /** Test file patterns written both flat and in the section, which the loader would join. */
  predicate PatternsClash(root: Root) {
    && PatternsOf(FlatValue(root, TestFilePatterns)).Some? && PatternsOf(FlatValue(root, TestFilePatterns)).value != []
    && PatternsOf(FieldValue(root, Place(Review, KPatterns))).Some?
  }

  lemma FlatIsLegacy(root: Root, flat: FlatKey)
    requires Accepted(root) && flat != ThemeName
    ensures FlatValue(root, flat) == LegacyValue(root, flat)
    ensures FlatValue(root, flat).Some? ==> Typed(Target(flat), FlatValue(root, flat).value)
    ensures FieldValue(root, Target(flat)).Some? ==> Typed(Target(flat), FieldValue(root, Target(flat)).value)
    ensures Target(flat).section != Theme && !Target(flat).section.OtherSection? && Target(flat).key != KCustom
    ensures Target(flat).key == KPatterns <==> flat == TestFilePatterns
  {
    hide FieldValue;
  }

  /** A setting with one flat spelling is loaded the same before and after, unless its key is lost. */
  lemma SettingKept(root: Root, flat: FlatKey, s: string)
    requires Accepted(root) && HasOneSpelling(flat)
    ensures var place, after := Target(flat), Migrated(root);
      Pick(Pick(s, FlatText(after, flat)), FieldText(after, place.section, place.key)) ==
      if Lost(root, flat) then s else Pick(Pick(s, FlatText(root, flat)), FieldText(root, place.section, place.key))
  {
    hide MOVES, FieldValue, FlatValue, FirstValue, Migrated, LegacyValue, Accepted, Target, SectionItem;
    FlatIsLegacy(root, flat);
    MigratedField(root, flat, Target(flat));
    FirstOfMoves(root, flat);
    OneSpellingHasOnePlace(flat);
  }

  lemma OneSpellingHasOnePlace(flat: FlatKey)
    requires HasOneSpelling(flat)
    ensures Target(flat) != Target(TransparentSnake)
  {
  }

  lemma TransparentKept(root: Root, s: string)
    requires Accepted(root)
    ensures var before, after :=
        Pick(Pick(s, FlatTransparent(root)), FieldText(root, View, KTransparent)),
        Pick(Pick(s, FlatTransparent(Migrated(root))), FieldText(Migrated(root), View, KTransparent));
      if Lost(root, TransparentSnake) || Lost(root, TransparentCamel)
        then after == s && (exists v :: before == v && FlatTransparent(root) == Some(v))
      else after == before <==> !TransparentClash(root)
  {
    hide MOVES, FieldValue, FlatValue, FirstValue, Migrated, LegacyValue, Accepted, SectionItem;
    FlatIsLegacy(root, TransparentSnake);
    FlatIsLegacy(root, TransparentCamel);
    MigratedField(root, TransparentSnake, Place(View, KTransparent));
    MigratedField(root, TransparentCamel, Place(View, KTransparent));
    FirstOfMoves(root, TransparentSnake);
  }

  lemma PatternsKept(root: Root, s: seq<string>)
    requires Accepted(root)
    ensures var after, place := Migrated(root), Place(Review, KPatterns);
      Extended(Extended(s, PatternsOf(FlatValue(after, TestFilePatterns))), PatternsOf(FieldValue(after, place)))
        == Extended(Extended(s, PatternsOf(FlatValue(root, TestFilePatterns))), PatternsOf(FieldValue(root, place)))
      <==> !PatternsClash(root) && !Lost(root, TestFilePatterns)
  {
    hide MOVES, FieldValue, FlatValue, FirstValue, Migrated, LegacyValue, Accepted, SectionItem;
    FlatIsLegacy(root, TestFilePatterns);
    MigratedField(root, TestFilePatterns, Place(Review, KPatterns));
    FirstOfMoves(root, TestFilePatterns);
    var flat, field := PatternsOf(FlatValue(root, TestFilePatterns)),
      PatternsOf(FieldValue(root, Place(Review, KPatterns)));
    var front := if flat.Some? then flat.value else [];
    var back := if field.Some? then field.value else [];
    assert Extended(Extended(s, flat), field) == s + front + back;
    assert |s + front + back| == |s| + |front| + |back|;
    assert s + [] == s;
  }

  lemma ThemeKept(root: Root)
    requires Accepted(root)
    ensures TextOf(NameOfTheme(Migrated(root))) == if InlineTheme(root) then None else TextOf(NameOfTheme(root))
    ensures CustomOf(Migrated(root)) ==
      if CustomTheme !in root && InlineTheme(root) then None else CustomOf(root)
    ensures InlineThemeIsRead(root) <==>
      InlineTheme(root) && (TextOf(NameOfTheme(root)).Some? || (CustomTheme !in root && CustomOf(root).Some?))
  {
    hide Accepted, Migrated;
    MigratedTheme(root);
    ThemeIsSection(root);
    NameIsText(root);
  }

  lemma NameIsText(root: Root)
    requires Accepted(root)
    ensures FieldValue(root, Place(Theme, KName)).Some? ==> FieldValue(root, Place(Theme, KName)).value.Text?
  {
    assert FieldValue(root, Place(Theme, KName)).Some? ==>
      Typed(Place(Theme, KName), FieldValue(root, Place(Theme, KName)).value);
  }

  /** The settings of the map section that never had a flat spelling. */
  const MAP_ONLY: set<SectionKey> := {OtherKey("backend"), KProvider, KModel, KEffort, KTimeout}

  lemma MapOnlyKept(root: Root, key: SectionKey)
    requires key in MAP_ONLY
    ensures FieldText(Migrated(root), Map, key) == FieldText(root, Map, key)
  {
    hide MOVES, FieldValue, FirstValue, Migrated;
    forall i | 0 <= i < |MOVES| ensures Target(MOVES[i]) != Place(Map, key) { NoFlatSpelling(MOVES[i], key); }
    FirstIsNone(root, MOVES, Place(Map, key));
    MigratedField(root, Mode, Place(Map, key));
  }

  lemma NoFlatSpelling(flat: FlatKey, key: SectionKey)
    requires key in MAP_ONLY
    ensures Target(flat) != Place(Map, key)
  {
  }

  // ---- Settings ---------------------------------------------------------------------------

  /**
   * The table of moves and the loader agree on what a setting is called: the section key a flat key moves to
   * sets the same setting, and beats it, as it beats what earlier files said. The camel spelling of the
   * transparent background beats the snake one; patterns add up.
   */
  lemma LastSpellingWins(root: Root, s: Settings)
    ensures forall flat: FlatKey :: HasOneSpelling(flat) ==>
      SettingOf(Loaded(root, s), flat) ==
        Pick(Pick(SettingOf(s, flat), FlatText(root, flat)), FieldText(root, Target(flat).section, Target(flat).key))
    ensures Target(TransparentSnake) == Target(TransparentCamel) == Place(View, KTransparent)
    ensures Target(TestFilePatterns) == Place(Review, KPatterns) && Target(ThemeName) == Place(Theme, KName)
    ensures Loaded(root, s).transparent
      == Pick(Pick(s.transparent, FlatTransparent(root)), FieldText(root, View, KTransparent))
    ensures Loaded(root, s).patterns ==
      Extended(Extended(s.patterns, PatternsOf(FlatValue(root, TestFilePatterns))),
        PatternsOf(FieldValue(root, Place(Review, KPatterns))))
    ensures Loaded(root, s).theme == Pick(s.theme, TextOf(NameOfTheme(root)))
    ensures Loaded(root, s).customTheme == if CustomOf(root).Some? then CustomOf(root) else s.customTheme
  {
    forall flat: FlatKey | HasOneSpelling(flat)
      ensures SettingOf(Loaded(root, s), flat) ==
        Pick(Pick(SettingOf(s, flat), FlatText(root, flat)), FieldText(root, Target(flat).section, Target(flat).key))
    {
      SpelledInSection(root, s, flat);
    }
    assert Target(ThemeName) == Place(Theme, KName);
    WhereTheyGo();
    hide FlatText, FieldText, NameOfTheme, CustomOf, FlatTransparent, Pick, Extended, PatternsOf, TextOf, FlatValue,
      FieldValue, SettingOf, Target;
  }

  lemma SpelledInSection(root: Root, s: Settings, flat: FlatKey)
    requires HasOneSpelling(flat)
    ensures SettingOf(Loaded(root, s), flat) ==
      Pick(Pick(SettingOf(s, flat), FlatText(root, flat)), FieldText(root, Target(flat).section, Target(flat).key))
  {
    hide FlatText, FieldText, NameOfTheme, CustomOf, FlatTransparent, Pick, Extended, PatternsOf, TextOf, FlatValue,
      FieldValue;
  }

  lemma ViewProjections(s: Settings)
    ensures SettingOf(s, Mode) == s.mode && SettingOf(s, ShowSidebar) == s.showSidebar
      && SettingOf(s, LineNumbers) == s.lineNumbers && SettingOf(s, WrapLines) == s.wrapLines
      && SettingOf(s, HunkHeaders) == s.hunkHeaders && SettingOf(s, AgentNotes) == s.agentNotes
      && SettingOf(s, CopyDecorations) == s.copyDecorations && SettingOf(s, ColorMoved) == s.colorMoved
  {
  }

  lemma GeneralProjections(s: Settings)
    ensures SettingOf(s, Vcs) == s.vcs && SettingOf(s, Watch) == s.watch
      && SettingOf(s, ExcludeUntracked) == s.excludeUntracked && SettingOf(s, PromptSave) == s.promptSave
      && SettingOf(s, MapServer) == s.mapServer && SettingOf(s, MapTokenFile) == s.mapTokenFile
      && SettingOf(s, AiSummaries) == s.aiSummaries && SettingOf(s, StartOnMap) == s.startOnMap
  {
  }

  lemma AskProjections(s: Settings)
    ensures SettingOf(s, AskEnabled) == s.askEnabled && SettingOf(s, AskProvider) == s.askProvider
      && SettingOf(s, AskModel) == s.askModel && SettingOf(s, AskThinking) == s.askThinking
      && SettingOf(s, AskTimeout) == s.askTimeout && SettingOf(s, TestsLast) == s.testsLast
      && SettingOf(s, ReviewMessage) == s.reviewMessage
  {
  }

  lemma SameSettings(a: Settings, b: Settings)
    requires forall flat: FlatKey :: HasOneSpelling(flat) ==> SettingOf(a, flat) == SettingOf(b, flat)
    requires a.transparent == b.transparent && a.patterns == b.patterns && a.theme == b.theme
      && a.customTheme == b.customTheme
    requires a.mapBackend == b.mapBackend && a.mapProvider == b.mapProvider && a.mapModel == b.mapModel
      && a.mapEffort == b.mapEffort && a.mapTimeout == b.mapTimeout
    ensures a == b
  {
    hide SettingOf;
    ViewProjections(a);
    ViewProjections(b);
    GeneralProjections(a);
    GeneralProjections(b);
    AskProjections(a);
    AskProjections(b);
  }

  /** Every setting but two is loaded the same, when no inline table is in the way. */
  lemma OthersKept(root: Root, s: Settings)
    requires Accepted(root) && !LosesKey(root) && !InlineThemeIsRead(root)
    ensures var before, after := Loaded(root, s), Loaded(Migrated(root), s);
      after == before.(transparent := after.transparent, patterns := after.patterns)
  {
    var before, after := Loaded(root, s), Loaded(Migrated(root), s);
    LastSpellingWins(root, s);
    LastSpellingWins(Migrated(root), s);
    ThemeKept(root);
    MapOnlyLoaded(root, s);
    hide Loaded, Migrated, Accepted, FlatText, FieldText, Pick, NameOfTheme, CustomOf, FlatTransparent, InlineTheme,
      InlineThemeIsRead, TextOf;
    forall flat: FlatKey | HasOneSpelling(flat)
      ensures SettingOf(after, flat)
        == SettingOf(before.(transparent := after.transparent, patterns := after.patterns), flat)
    {
      assert !Lost(root, flat);
      SettingKept(root, flat, SettingOf(s, flat));
      SettingIsNot(before, after, flat);
    }
    SameSettings(after, before.(transparent := after.transparent, patterns := after.patterns));
  }

  lemma SettingIsNot(a: Settings, b: Settings, flat: FlatKey)
    requires HasOneSpelling(flat)
    ensures SettingOf(a.(transparent := b.transparent, patterns := b.patterns), flat) == SettingOf(a, flat)
  {
  }

  lemma MapOnlyLoaded(root: Root, s: Settings)
    ensures var before, after := Loaded(root, s), Loaded(Migrated(root), s);
      before.mapBackend == after.mapBackend && before.mapProvider == after.mapProvider
        && before.mapModel == after.mapModel
      && before.mapEffort == after.mapEffort && before.mapTimeout == after.mapTimeout
  {
    hide FlatText, FieldText, NameOfTheme, CustomOf, Migrated, FlatTransparent, Pick, Extended, PatternsOf, TextOf,
      FlatValue, FieldValue;
    MapOnlyKept(root, OtherKey("backend"));
    MapOnlyKept(root, KProvider);
    MapOnlyKept(root, KModel);
    MapOnlyKept(root, KEffort);
    MapOnlyKept(root, KTimeout);
  }

  /**
   * Migrating a file the loader accepts keeps every setting it makes, over whatever came before, if and only if
   * its spellings of the transparent background agree, its patterns are in one place, no flat key is lost to an
   * inline section, and no inline theme says anything.
   */
  lemma SettingsAreKeptIff(root: Root)
    requires Accepted(root)
    ensures (forall s :: Loaded(Migrated(root), s) == Loaded(root, s))
      <==> !TransparentClash(root) && !PatternsClash(root) && !LosesKey(root) && !InlineThemeIsRead(root)
  {
    hide Loaded, Migrated, Accepted, TransparentClash, PatternsClash, Lost, InlineThemeIsRead;
    if LosesKey(root) {
      var flat: FlatKey :| Lost(root, flat);
      LostKeyShows(root, flat);
    } else if InlineThemeIsRead(root) {
      InlineThemeShows(root);
    } else {
      forall s ensures Loaded(Migrated(root), s) == Loaded(root, s) <==>
        !TransparentClash(root) && !PatternsClash(root) {
        OnlyClashesShow(root, s);
      }
      assert Loaded(Migrated(root), Uniform("")) == Loaded(root, Uniform("")) <==>
        !TransparentClash(root) && !PatternsClash(root);
    }
  }

  lemma OnlyClashesShow(root: Root, s: Settings)
    requires Accepted(root) && !LosesKey(root) && !InlineThemeIsRead(root)
    ensures Loaded(Migrated(root), s) == Loaded(root, s) <==> !TransparentClash(root) && !PatternsClash(root)
  {
    OthersKept(root, s);
    TransparentKept(root, s.transparent);
    PatternsKept(root, s.patterns);
    LastSpellingWins(root, s);
    LastSpellingWins(Migrated(root), s);
    assert !Lost(root, TransparentSnake) && !Lost(root, TransparentCamel) && !Lost(root, TestFilePatterns);
    hide *;
  }

  /** Settings that say the same everywhere. */
  function Uniform(text: string): Settings {
    Settings(text, text, text, text, text, text, text, text, text, text, text, text, text, text, [], text, text, text,
      text, text,
             text, text, text, text, text, text, text, text, text, text, text, None)
  }

  function OtherThan(text: string): (other: string)
    ensures other != text
  {
    if text == "" then "-" else ""
  }

  lemma UniformSays(text: string, flat: FlatKey)
    requires flat != TestFilePatterns
    ensures SettingOf(Uniform(text), flat) == text
  {
  }

  lemma LostSettingShows(root: Root, flat: FlatKey)
    requires Accepted(root) && Lost(root, flat) && HasOneSpelling(flat) && FlatText(root, flat).Some?
    ensures exists s :: Loaded(Migrated(root), s) != Loaded(root, s)
  {
    hide MOVES, Migrated, Accepted, FieldValue, FlatValue, SectionItem, Loaded, NameOfTheme, CustomOf, SettingOf,
      Target;
    var s := Uniform(OtherThan(FlatText(root, flat).value));
    LastSpellingWins(root, s);
    LastSpellingWins(Migrated(root), s);
    SettingKept(root, flat, SettingOf(s, flat));
    UniformSays(OtherThan(FlatText(root, flat).value), flat);
    assert Loaded(Migrated(root), s) != Loaded(root, s);
  }

  lemma LostTransparentShows(root: Root)
    requires Accepted(root) && (Lost(root, TransparentSnake) || Lost(root, TransparentCamel))
    ensures exists s :: Loaded(Migrated(root), s) != Loaded(root, s)
  {
    hide MOVES, Migrated, Accepted, Lost, FieldText, FlatText, FlatTransparent, Loaded, NameOfTheme, CustomOf,
      SettingOf, Target;
    TransparentKept(root, "");
    var s := Uniform(OtherThan(FlatTransparent(root).value));
    LastSpellingWins(root, s);
    LastSpellingWins(Migrated(root), s);
    TransparentKept(root, s.transparent);
    assert Loaded(Migrated(root), s) != Loaded(root, s);
  }

  lemma LostPatternsShow(root: Root)
    requires Accepted(root) && Lost(root, TestFilePatterns)
    ensures exists s :: Loaded(Migrated(root), s) != Loaded(root, s)
  {
    hide MOVES, Migrated, Accepted, Lost, FieldText, FlatText, FlatTransparent, Loaded, NameOfTheme, CustomOf,
      SettingOf, Target, Extended;
    var s := Uniform("");
    LastSpellingWins(root, s);
    LastSpellingWins(Migrated(root), s);
    PatternsKept(root, s.patterns);
    assert Loaded(Migrated(root), s) != Loaded(root, s);
  }

  /** A lost key shows: it is in the migrated file nowhere, and the setting falls back to what earlier files said. */
  lemma LostKeyShows(root: Root, flat: FlatKey)
    requires Accepted(root) && Lost(root, flat)
    ensures FlatValue(Migrated(root), flat) == None && FieldValue(Migrated(root), Target(flat)) == None
    ensures exists s :: Loaded(Migrated(root), s) != Loaded(root, s)
  {
    hide MOVES, Migrated, Accepted, FieldValue, FlatValue, SectionItem, Loaded, Target;
    FlatIsLegacy(root, flat);
    MigratedField(root, flat, Target(flat));
    if flat == TestFilePatterns { LostPatternsShow(root); }
    else if HasOneSpelling(flat) { LostSettingShows(root, flat); }
    else { LostTransparentShows(root); }
  }

  lemma InlineThemeShows(root: Root)
    requires Accepted(root) && InlineThemeIsRead(root)
    ensures exists s :: Loaded(Migrated(root), s) != Loaded(root, s)
  {
    var name := TextOf(NameOfTheme(root));
    var s := Uniform(OtherThan(if name.Some? then name.value else ""));
    ThemeKept(root);
    LastSpellingWins(root, s);
    LastSpellingWins(Migrated(root), s);
    hide Loaded, Migrated, Accepted, FlatText, FieldText, NameOfTheme, CustomOf, FlatTransparent;
    assert Loaded(Migrated(root), s) != Loaded(root, s);
  }

  // ---- Whether the file can still be read -------------------------------------------------

  lemma AcceptedField(root: Root, place: Place)
    requires Accepted(root) && FieldValue(root, place).Some?
    ensures Owns(place) && Typed(place, FieldValue(root, place).value)
  {
  }

  /** What moves to a place is of the kind that place takes. */
  lemma {:induction false} FirstIsTyped(root: Root, keys: seq<FlatKey>, place: Place)
    requires Accepted(root) && place.section != Theme && FirstValue(root, keys, place).Some?
    ensures Owns(place) && Typed(place, FirstValue(root, keys, place).value)
  {
    var front, last := keys[..|keys| - 1], keys[|keys| - 1];
    if FirstValue(root, front, place).Some? || Target(last) != place {
      FirstIsTyped(root, front, place);
    } else {
      hide Accepted, FieldValue, FlatValue;
      ThemeStays(last);
      FlatIsLegacy(root, last);
      Owned(last);
    }
  }

  lemma Owned(flat: FlatKey)
    ensures Owns(Target(flat))
  {
  }

  lemma MigratedFieldIsTyped(root: Root, place: Place)
    requires Accepted(root) && !InlineTheme(root) && FieldValue(Migrated(root), place).Some?
    ensures Owns(place) && Typed(place, FieldValue(Migrated(root), place).value)
  {
    hide MOVES, Migrated, Accepted, SectionItem;
    if place.section == Theme {
      MigratedTheme(root);
      ThemeIsSection(root);
      MigratedThemeIsTyped(root, place);
    } else {
      hide FieldValue;
      MigratedField(root, Mode, place);
      if FieldValue(root, place).Some? { AcceptedField(root, place); }
      else { FirstIsTyped(root, MOVES, place); }
    }
  }

  lemma MigratedThemeIsTyped(root: Root, place: Place)
    requires Accepted(root) && !InlineTheme(root) && place.section == Theme && FieldValue(Migrated(root), place).Some?
    ensures Owns(place) && Typed(place, FieldValue(Migrated(root), place).value)
  {
    hide MOVES, Migrated;
    MigratedTheme(root);
    ThemeIsSection(root);
    if FieldValue(root, place).Some? { AcceptedField(root, place); }
  }

  lemma {:induction false} SectionsStay(root: Root, keys: seq<FlatKey>, name: SectionName)
    requires name != Theme && (Section(name) in root ==> IsSection(root[Section(name)]))
    ensures Section(name) in MoveKeys(root, keys) ==> IsSection(MoveKeys(root, keys)[Section(name)])
  {
    if keys != [] {
      hide Target;
      SectionsStay(root, keys[..|keys| - 1], name);
      ThemeStays(keys[|keys| - 1]);
    }
  }

  lemma MigratedSection(root: Root, name: SectionName)
    requires Accepted(root) && Section(name) in Migrated(root)
    ensures IsSection(Migrated(root)[Section(name)])
  {
    hide MOVES, MoveKeys, Legacy;
    MigratedTheme(root);
    if name != Theme { SectionsStay(root, Legacy(root, MOVES), name); }
  }

  lemma MigratedHasNoFlat(root: Root, flat: FlatKey)
    requires Accepted(root)
    ensures Flat(flat) !in Migrated(root)
  {
    hide MOVES, MoveKeys, Legacy;
    FlatsStay(root, Legacy(root, MOVES), flat);
    if flat != ThemeName { MovedIsMoved(root, flat, Place(View, KMode)); }
  }

  lemma {:induction false} FlatsStay(root: Root, keys: seq<FlatKey>, flat: FlatKey)
    requires Flat(flat) in root ==> root[Flat(flat)].Leaf?
    ensures Flat(flat) in MoveKeys(root, keys) ==> Flat(flat) in root && MoveKeys(root, keys)[Flat(flat)].Leaf?
  {
    if keys != [] {
      hide Target;
      FlatsStay(root, keys[..|keys| - 1], flat);
    }
  }

  /** The loader still reads the migrated file if and only if the theme was not written inline. */
  lemma StaysAcceptedIff(root: Root)
    requires Accepted(root)
    ensures Accepted(Migrated(root)) <==> !InlineTheme(root)
  {
    var after := Migrated(root);
    MigratedTheme(root);
    if InlineTheme(root) {
      assert FieldValue(after, Place(Theme, KName)) == Some(SectionItem(root, Theme).value);
      assert !Typed(Place(Theme, KName), FieldValue(after, Place(Theme, KName)).value);
    } else {
      hide Migrated, FieldValue, Owns, Typed;
      forall flat: FlatKey ensures Flat(flat) !in after { MigratedHasNoFlat(root, flat); }
      forall name: SectionName | Section(name) in after
        ensures IsSection(after[Section(name)]) { MigratedSection(root, name); }
      forall place: Place | FieldValue(after, place).Some?
        ensures Owns(place) && Typed(place, FieldValue(after, place).value) {
        MigratedFieldIsTyped(root, place);
      }
    }
  }

  /** Reading a file: an error, or the settings it makes of those before it. */
  ghost function Read(root: Root, s: Settings): Option<Settings> {
    if Accepted(root) then Some(Loaded(root, s)) else None
  }

  /**
   * Reading an accepted file gives the same before and after the move, for any settings before it, exactly when this
   * holds.
   */
  lemma MeaningIsKeptIff(root: Root)
    requires Accepted(root)
    ensures (forall s :: Read(Migrated(root), s) == Read(root, s))
      <==> !TransparentClash(root) && !PatternsClash(root) && !LosesKey(root) && !InlineTheme(root)
  {
    hide Accepted, Loaded, Migrated, TransparentClash, PatternsClash, LosesKey, InlineTheme;
    StaysAcceptedIff(root);
    SettingsAreKeptIff(root);
    InlineIsRead(root);
    assert InlineTheme(root) ==> Read(Migrated(root), Uniform("")) != Read(root, Uniform(""));
    if !InlineTheme(root) {
      forall s ensures Read(Migrated(root), s) == Read(root, s) <==> Loaded(Migrated(root), s) == Loaded(root, s) {
      }
    }
  }

  lemma InlineIsRead(root: Root)
    ensures InlineThemeIsRead(root) ==> InlineTheme(root)
  {
  }

  // ---- Files that change ------------------------------------------------------------------

  const DISAGREEING: Root :=
    map[Flat(TransparentSnake) := Leaf(Text("true")), Flat(TransparentCamel) := Leaf(Text("false"))]
  const TWO_PATTERNS: Root :=
    map[Flat(TestFilePatterns) := Leaf(Patterns(["a"])), Section(Review) := Table(map[KPatterns := Patterns(["b"])])]
  const INLINE_VIEW: Root := map[Flat(Mode) := Leaf(Text("split")), Section(View) := Leaf(InlineTable(map[]))]
  const INLINE_THEME: Root := map[Section(Theme) := Leaf(InlineTable(map[KName := Text("x")]))]

  /** Each way of losing meaning happens to a file that has no other fault. */
  lemma SpellingsDisagree()
    ensures Accepted(DISAGREEING) && TransparentClash(DISAGREEING)
    ensures !PatternsClash(DISAGREEING) && !LosesKey(DISAGREEING) && !InlineTheme(DISAGREEING)
  {
    hide Target;
    WhereTheyGo();
  }

  lemma PatternsInBoth()
    ensures Accepted(TWO_PATTERNS) && PatternsClash(TWO_PATTERNS)
    ensures !TransparentClash(TWO_PATTERNS) && !LosesKey(TWO_PATTERNS) && !InlineTheme(TWO_PATTERNS)
  {
    hide Target;
    WhereTheyGo();
  }

  lemma InlineSectionLosesKey()
    ensures Accepted(INLINE_VIEW) && Lost(INLINE_VIEW, Mode)
    ensures !TransparentClash(INLINE_VIEW) && !PatternsClash(INLINE_VIEW) && !InlineTheme(INLINE_VIEW)
  {
    hide Target;
    WhereTheyGo();
  }

  lemma InlineThemeIsLost()
    ensures Accepted(INLINE_THEME) && InlineThemeIsRead(INLINE_THEME)
    ensures !TransparentClash(INLINE_THEME) && !PatternsClash(INLINE_THEME) && !LosesKey(INLINE_THEME)
  {
    hide Target;
    WhereTheyGo();
  }

  lemma WhereTheyGo()
    ensures Target(TransparentSnake) == Target(TransparentCamel) == Place(View, KTransparent)
    ensures Target(TestFilePatterns) == Place(Review, KPatterns) && Target(Mode) == Place(View, KMode)
  {
  }

  /** An inline section that has the key itself loses nothing: the section would have won. */
  lemma InlineSectionWithKeyKeepsIt(root: Root, flat: FlatKey)
    requires Accepted(root) && flat != ThemeName && FieldValue(root, Target(flat)).Some?
    ensures !Lost(root, flat) && FieldValue(Migrated(root), Target(flat)) == FieldValue(root, Target(flat))
  {
    hide MOVES, Migrated, Accepted, FieldValue, SectionItem, Target, FirstValue;
    FlatIsLegacy(root, flat);
    MigratedField(root, flat, Target(flat));
  }

  // ---- Once is enough ---------------------------------------------------------------------

  lemma NothingLegacyIsLeft(root: Root, flat: FlatKey)
    ensures !IsLegacy(Migrated(root), flat)
  {
    hide MOVES, Legacy, MoveKeys, HasCustom;
    MovesAreRanked();
    OnlyLegacyMoves(root, MOVES);
    assert MOVES[Rank(flat)] == flat;
    KeysAreTaken(root, MOVES, flat);
  }

  /** Whatever the file, a second migration finds nothing to move and reports nothing. */
  lemma MigratesOnce(root: Root)
    ensures Migrated(Migrated(root)) == Migrated(root) && Report(Migrated(root)) == []
  {
    hide MOVES, Legacy, MoveKeys, IsLegacy;
    var once := Migrated(root);
    MovesAreRanked();
    OnlyLegacyMoves(once, MOVES);
    var left := Legacy(once, MOVES);
    forall flat: FlatKey ensures !IsLegacy(once, flat) { NothingLegacyIsLeft(root, flat); }
    assert forall k :: k in left ==> IsLegacy(once, k);
    SomeOrNone(left);
    NoKeysNoMoves(once);
    CustomIsSettled(MoveKeys(root, Legacy(root, MOVES)));
  }

  lemma SomeOrNone(keys: seq<FlatKey>)
    ensures keys == [] || exists k :: k in keys
  {
    if keys != [] { assert keys[0] in keys; }
  }

  lemma NoKeysNoMoves(root: Root)
    ensures MoveKeys(root, []) == root && MovedKeys(root, []) == []
  {
  }

  lemma CustomIsSettled(root: Root)
    ensures !CustomMoves(MoveCustom(root))
  {
  }

  // ---- The report -------------------------------------------------------------------------

  /** The flat keys present that find a table to move to. */
  function Movable(root: Root, keys: seq<FlatKey>): seq<Moved> {
    if keys == [] then [] else
      var last := keys[|keys| - 1];
      Movable(root, keys[..|keys| - 1])
        + (if IsLegacy(root, last) && (last == ThemeName || SectionItem(root, Target(last).section).Table?)
          then [MovedKey(last)] else [])
  }

  lemma {:induction false} MovedAll(root: Root, keys: seq<FlatKey>)
    requires Distinct(keys)
    ensures MovedKeys(root, Legacy(root, keys)) == Movable(root, keys)
  {
    if keys != [] {
      hide IsLegacy, CanMove, MoveKey, FieldValue, Target, SectionItem;
      var front, last := keys[..|keys| - 1], keys[|keys| - 1];
      MovedAll(root, front);
      OnlyLegacyMoves(root, front);
      var before := Legacy(root, front);
      assert (before + [last])[..|before|] == before && before + [] == before;
      LaterKeysStay(root, front, last);
      LegacyIff(root, last);
      LegacyIff(MoveKeys(root, front), last);
      CanMoveIff(MoveKeys(root, front), last);
      ThemeStays(last);
      if last != ThemeName { AfterMoves(root, front, Target(last)); }
    }
  }

  /**
   * The rewrite reports exactly the flat keys that found a table, in the order of the table of moves, and the custom
   * theme if it moved.
   */
  lemma ReportIsComplete(root: Root)
    requires Accepted(root)
    ensures Report(root) == Movable(root, MOVES)
      + (if CustomTheme in root && KCustom !in ThemeFields(root) then [MovedCustomTheme] else [])
  {
    hide MOVES, Accepted, MoveKeys, MovedKeys, IsLegacy, Legacy, Movable;
    MovesAreRanked();
    MovedAll(root, MOVES);
    MovedTheme(root);
    ThemeIsSection(root);
  }
}
