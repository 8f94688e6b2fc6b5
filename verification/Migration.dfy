/** The user configuration, what the loader reads from it, and the one-time move of flat keys into sections. */
module Migration {
  import opened DiffModel

  /** Root keys of the first releases, in the order of the table of moves. */
  datatype FlatKey =
    | Mode | ShowSidebar | LineNumbers | WrapLines | HunkHeaders | AgentNotes | TransparentSnake | TransparentCamel
    | ColorMoved | CopyDecorations | Vcs | Watch | ExcludeUntracked | PromptSave | ThemeName | ReviewMessage
    | TestsLast | TestFilePatterns | AskEnabled | AskProvider | AskModel | AskThinking | AskTimeout
    | AiSummaries | StartOnMap | MapServer | MapTokenFile

  const MOVES: seq<FlatKey> := [
    Mode, ShowSidebar, LineNumbers, WrapLines, HunkHeaders, AgentNotes, TransparentSnake, TransparentCamel,
    ColorMoved, CopyDecorations, Vcs, Watch, ExcludeUntracked, PromptSave, ThemeName, ReviewMessage,
    TestsLast, TestFilePatterns, AskEnabled, AskProvider, AskModel, AskThinking, AskTimeout,
    AiSummaries, StartOnMap, MapServer, MapTokenFile]

  datatype SectionName = General | View | Theme | Review | Ask | Map | OtherSection(name: string)

  datatype SectionKey =
    | KMode | KShowSidebar | KLineNumbers | KWrapLines | KHunkHeaders | KAgentNotes | KTransparent | KColorMoved
    | KCopyDecorations | KVcs | KWatch | KExcludeUntracked | KPromptSave | KName | KCustom | KMessage | KTestsLast
    | KPatterns | KEnabled | KProvider | KModel | KEffort | KTimeout | KStartOn | KServer | KTokenFile
    | OtherKey(key: string)

  datatype Place = Place(section: SectionName, key: SectionKey)

  /** Where a flat key lives now. */
  function Target(flat: FlatKey): Place {
    match flat
    case Mode => Place(View, KMode)
    case ShowSidebar => Place(View, KShowSidebar)
    case LineNumbers => Place(View, KLineNumbers)
    case WrapLines => Place(View, KWrapLines)
    case HunkHeaders => Place(View, KHunkHeaders)
    case AgentNotes => Place(View, KAgentNotes)
    case TransparentSnake => Place(View, KTransparent)
    case TransparentCamel => Place(View, KTransparent)
    case ColorMoved => Place(View, KColorMoved)
    case CopyDecorations => Place(View, KCopyDecorations)
    case Vcs => Place(General, KVcs)
    case Watch => Place(General, KWatch)
    case ExcludeUntracked => Place(General, KExcludeUntracked)
    case PromptSave => Place(General, KPromptSave)
    case ThemeName => Place(Theme, KName)
    case ReviewMessage => Place(Review, KMessage)
    case TestsLast => Place(Review, KTestsLast)
    case TestFilePatterns => Place(Review, KPatterns)
    case AskEnabled => Place(Ask, KEnabled)
    case AskProvider => Place(Ask, KProvider)
    case AskModel => Place(Ask, KModel)
    case AskThinking => Place(Ask, KEffort)
    case AskTimeout => Place(Ask, KTimeout)
    case AiSummaries => Place(Map, KEnabled)
    case StartOnMap => Place(Map, KStartOn)
    case MapServer => Place(Map, KServer)
    case MapTokenFile => Place(Map, KTokenFile)
  }

  /** `theme` is both a flat key and the name of its own section: one root key holds either. */
  datatype RootKey = Flat(key: FlatKey) | Section(name: SectionName) | CustomTheme

  function RootOf(flat: FlatKey): RootKey { if flat == ThemeName then Section(Theme) else Flat(flat) }

  /** TOML values: an inline table is a value too. A palette is the table of a custom theme. */
  datatype Value = Text(text: string) | Patterns(patterns: seq<string>) | Palette(colors: map<string, string>)
                 | InlineTable(inlined: map<SectionKey, Value>)

  datatype Item = Leaf(value: Value) | Table(fields: map<SectionKey, Value>) | Colors(colors: map<string, string>)

  type Root = map<RootKey, Item>

  // ---- Moving -----------------------------------------------------------------------------

  predicate IsLegacy(root: Root, flat: FlatKey) { RootOf(flat) in root && root[RootOf(flat)].Leaf? }

  /** The flat keys present, in the order they are moved. */
  function Legacy(root: Root, keys: seq<FlatKey>): seq<FlatKey> {
    if keys == [] then [] else
      var last := keys[|keys| - 1];
      Legacy(root, keys[..|keys| - 1]) + (if IsLegacy(root, last) then [last] else [])
  }

  function SectionItem(root: Root, name: SectionName): Item {
    if Section(name) in root then root[Section(name)] else Table(map[])
  }

  /** Whether moving finds a table to move to; an inline table is not one, and then the value is dropped. */
  predicate CanMove(root: Root, flat: FlatKey) { SectionItem(root - {RootOf(flat)}, Target(flat).section).Table? }

  /** A section key already present wins: it is the newer spelling. */
  function MoveKey(root: Root, flat: FlatKey): Root
    requires IsLegacy(root, flat)
  {
    var value, place, rest := root[RootOf(flat)].value, Target(flat), root - {RootOf(flat)};
    if !CanMove(root, flat) then rest else
      var fields := SectionItem(rest, place.section).fields;
      rest[Section(place.section) := Table(if place.key in fields then fields else fields[place.key := value])]
  }

  function MoveKeys(root: Root, keys: seq<FlatKey>): Root {
    if keys == [] then root else
      var before, flat := MoveKeys(root, keys[..|keys| - 1]), keys[|keys| - 1];
      if IsLegacy(before, flat) then MoveKey(before, flat) else before
  }

  function MovedKeys(root: Root, keys: seq<FlatKey>): seq<Moved> {
    if keys == [] then [] else
      var before, flat := MoveKeys(root, keys[..|keys| - 1]), keys[|keys| - 1];
      MovedKeys(root, keys[..|keys| - 1])
        + (if IsLegacy(before, flat) && CanMove(before, flat) then [MovedKey(flat)] else [])
  }

  predicate HasCustom(root: Root) {
    Section(Theme) in root && match root[Section(Theme)]
      case Table(fields) => KCustom in fields
      case Leaf(InlineTable(fields)) => KCustom in fields
      case _ => false
  }

  function AsField(item: Item): Value {
    match item
    case Leaf(value) => value
    case Table(fields) => InlineTable(fields)
    case Colors(colors) => Palette(colors)
  }

  predicate CustomMoves(root: Root) { CustomTheme in root && !HasCustom(root) }

  /** `[custom_theme]` becomes `[theme.custom]`, unless there is one. */
  function MoveCustom(root: Root): Root {
    if !CustomMoves(root) then root else
      var theme, rest := SectionItem(root, Theme), root - {CustomTheme};
      if !theme.Table? then rest else rest[Section(Theme) := Table(theme.fields[KCustom := AsField(root[CustomTheme])])]
  }

  /** What the rewrite reports: a flat key that moved, or the custom theme. */
  datatype Moved = MovedKey(key: FlatKey) | MovedCustomTheme

  function Migrated(root: Root): Root { MoveCustom(MoveKeys(root, Legacy(root, MOVES))) }

  function Report(root: Root): seq<Moved> {
    var keys := Legacy(root, MOVES);
    var before := MoveKeys(root, keys);
    MovedKeys(root, keys)
      + (if CustomMoves(before) && SectionItem(before, Theme).Table? then [MovedCustomTheme] else [])
  }

  class Document {
    var root: Root

    constructor (root: Root)
      ensures this.root == root
    {
      this.root := root;
    }

    method MoveLegacyKeys() returns (moved: seq<Moved>)
      modifies this
      ensures root == Migrated(old(root)) && moved == Report(old(root))
    {
      hide Target, MOVES, HasCustom, AsField;
      var legacy := [];
      for i := 0 to |MOVES|
        invariant root == old(root) && legacy == Legacy(root, MOVES[..i])
      {
        assert MOVES[..i + 1][..i] == MOVES[..i];
        if IsLegacy(root, MOVES[i]) {
          legacy := legacy + [MOVES[i]];
        }
      }
      assert MOVES[..|MOVES|] == MOVES;
      ghost var start := root;
      var hasCustomTheme := CustomTheme in root;
      moved := [];
      for i := 0 to |legacy|
        invariant root == MoveKeys(start, legacy[..i]) && moved == MovedKeys(start, legacy[..i])
        invariant CustomTheme in root <==> hasCustomTheme
      {
        var flat := legacy[i];
        assert legacy[..i + 1][..i] == legacy[..i];
        if !IsLegacy(root, flat) {
          continue;
        }
        var value, place := root[RootOf(flat)].value, Target(flat);
        ghost var before := root;
        root := root - {RootOf(flat)};
        var entry := SectionItem(root, place.section);
        if entry.Table? {
          root := root[Section(place.section) :=
            Table(if place.key in entry.fields then entry.fields else entry.fields[place.key := value])];
          moved := moved + [MovedKey(flat)];
        }
        assert root == MoveKey(before, flat);
      }
      assert legacy[..|legacy|] == legacy;
      if hasCustomTheme && !HasCustom(root) {
        var custom := root[CustomTheme];
        root := root - {CustomTheme};
        var entry := SectionItem(root, Theme);
        if entry.Table? {
          root := root[Section(Theme) := Table(entry.fields[KCustom := AsField(custom)])];
          moved := moved + [MovedCustomTheme];
        }
      }
    }
  }

  // ---- What the loader reads --------------------------------------------------------------

  function Fields(root: Root, name: SectionName): map<SectionKey, Value> {
    match SectionItem(root, name)
    case Table(fields) => fields
    case Leaf(InlineTable(fields)) => fields
    case _ => map[]
  }

  function TextOf(value: Option<Value>): Option<string> {
    if value.Some? && value.value.Text? then Some(value.value.text) else None
  }

  function PatternsOf(value: Option<Value>): Option<seq<string>> {
    if value.Some? && value.value.Patterns? then Some(value.value.patterns) else None
  }

  function FlatValue(root: Root, flat: FlatKey): Option<Value> {
    if Flat(flat) in root && root[Flat(flat)].Leaf? then Some(root[Flat(flat)].value) else None
  }

  function FieldValue(root: Root, place: Place): Option<Value> {
    var fields := Fields(root, place.section);
    if place.key in fields then Some(fields[place.key]) else None
  }

  /** The theme's name, written flat or in the section. */
  function NameOfTheme(root: Root): Option<Value> {
    match SectionItem(root, Theme)
    case Leaf(Text(name)) => Some(Text(name))
    case _ => FieldValue(root, Place(Theme, KName))
  }

  /** The old table wins over `[theme.custom]`. */
  function CustomOf(root: Root): Option<Value> {
    if CustomTheme in root then Some(AsField(root[CustomTheme])) else FieldValue(root, Place(Theme, KCustom))
  }

  function Pick<T>(value: T, newer: Option<T>): T { if newer.Some? then newer.value else value }

  datatype Settings = Settings(
    mode: string, vcs: string, theme: string, showSidebar: string, watch: string, excludeUntracked: string,
    lineNumbers: string, wrapLines: string, hunkHeaders: string, agentNotes: string, copyDecorations: string,
    promptSave: string, transparent: string, colorMoved: string, patterns: seq<string>, mapServer: string,
    mapTokenFile: string, aiSummaries: string, startOnMap: string, testsLast: string, askEnabled: string,
    askProvider: string, askModel: string, askThinking: string, askTimeout: string, reviewMessage: string,
    mapBackend: string, mapProvider: string, mapModel: string, mapEffort: string, mapTimeout: string,
    customTheme: Option<Value>)

  function FlatText(root: Root, flat: FlatKey): Option<string> { TextOf(FlatValue(root, flat)) }

  function FieldText(root: Root, section: SectionName, key: SectionKey): Option<string> {
    TextOf(FieldValue(root, Place(section, key)))
  }

  /** The camel spelling wins over the snake one. */
  function FlatTransparent(root: Root): Option<string> {
    if FlatText(root, TransparentCamel).Some? then FlatText(root, TransparentCamel)
      else FlatText(root, TransparentSnake)
  }

  function Extended(patterns: seq<string>, more: Option<seq<string>>): seq<string> {
    if more.Some? then patterns + more.value else patterns
  }

  /** The flat keys of a file, applied to the settings before it. */
  function Layered(root: Root, s: Settings): Settings {
    s.(
      mode := Pick(s.mode, FlatText(root, Mode)),
      vcs := Pick(s.vcs, FlatText(root, Vcs)),
      showSidebar := Pick(s.showSidebar, FlatText(root, ShowSidebar)),
      watch := Pick(s.watch, FlatText(root, Watch)),
      excludeUntracked := Pick(s.excludeUntracked, FlatText(root, ExcludeUntracked)),
      lineNumbers := Pick(s.lineNumbers, FlatText(root, LineNumbers)),
      wrapLines := Pick(s.wrapLines, FlatText(root, WrapLines)),
      hunkHeaders := Pick(s.hunkHeaders, FlatText(root, HunkHeaders)),
      agentNotes := Pick(s.agentNotes, FlatText(root, AgentNotes)),
      copyDecorations := Pick(s.copyDecorations, FlatText(root, CopyDecorations)),
      promptSave := Pick(s.promptSave, FlatText(root, PromptSave)),
      transparent := Pick(s.transparent, FlatTransparent(root)),
      colorMoved := Pick(s.colorMoved, FlatText(root, ColorMoved)),
      mapServer := Pick(s.mapServer, FlatText(root, MapServer)),
      mapTokenFile := Pick(s.mapTokenFile, FlatText(root, MapTokenFile)),
      aiSummaries := Pick(s.aiSummaries, FlatText(root, AiSummaries)),
      startOnMap := Pick(s.startOnMap, FlatText(root, StartOnMap)),
      testsLast := Pick(s.testsLast, FlatText(root, TestsLast)),
      askEnabled := Pick(s.askEnabled, FlatText(root, AskEnabled)),
      askProvider := Pick(s.askProvider, FlatText(root, AskProvider)),
      askModel := Pick(s.askModel, FlatText(root, AskModel)),
      askThinking := Pick(s.askThinking, FlatText(root, AskThinking)),
      askTimeout := Pick(s.askTimeout, FlatText(root, AskTimeout)),
      reviewMessage := Pick(s.reviewMessage, FlatText(root, ReviewMessage)),
      patterns := Extended(s.patterns, PatternsOf(FlatValue(root, TestFilePatterns))))
  }

  /** The sections of a file, applied after its flat keys. */
  function Sectioned(root: Root, s: Settings): Settings {
    s.(
      mode := Pick(s.mode, FieldText(root, View, KMode)),
      vcs := Pick(s.vcs, FieldText(root, General, KVcs)),
      showSidebar := Pick(s.showSidebar, FieldText(root, View, KShowSidebar)),
      watch := Pick(s.watch, FieldText(root, General, KWatch)),
      excludeUntracked := Pick(s.excludeUntracked, FieldText(root, General, KExcludeUntracked)),
      lineNumbers := Pick(s.lineNumbers, FieldText(root, View, KLineNumbers)),
      wrapLines := Pick(s.wrapLines, FieldText(root, View, KWrapLines)),
      hunkHeaders := Pick(s.hunkHeaders, FieldText(root, View, KHunkHeaders)),
      agentNotes := Pick(s.agentNotes, FieldText(root, View, KAgentNotes)),
      copyDecorations := Pick(s.copyDecorations, FieldText(root, View, KCopyDecorations)),
      promptSave := Pick(s.promptSave, FieldText(root, General, KPromptSave)),
      transparent := Pick(s.transparent, FieldText(root, View, KTransparent)),
      colorMoved := Pick(s.colorMoved, FieldText(root, View, KColorMoved)),
      mapServer := Pick(s.mapServer, FieldText(root, Map, KServer)),
      mapTokenFile := Pick(s.mapTokenFile, FieldText(root, Map, KTokenFile)),
      aiSummaries := Pick(s.aiSummaries, FieldText(root, Map, KEnabled)),
      startOnMap := Pick(s.startOnMap, FieldText(root, Map, KStartOn)),
      testsLast := Pick(s.testsLast, FieldText(root, Review, KTestsLast)),
      askEnabled := Pick(s.askEnabled, FieldText(root, Ask, KEnabled)),
      askProvider := Pick(s.askProvider, FieldText(root, Ask, KProvider)),
      askModel := Pick(s.askModel, FieldText(root, Ask, KModel)),
      askThinking := Pick(s.askThinking, FieldText(root, Ask, KEffort)),
      askTimeout := Pick(s.askTimeout, FieldText(root, Ask, KTimeout)),
      reviewMessage := Pick(s.reviewMessage, FieldText(root, Review, KMessage)),
      theme := Pick(s.theme, TextOf(NameOfTheme(root))),
      patterns := Extended(s.patterns, PatternsOf(FieldValue(root, Place(Review, KPatterns)))),
      mapBackend := Pick(s.mapBackend, FieldText(root, Map, OtherKey("backend"))),
      mapProvider := Pick(s.mapProvider, FieldText(root, Map, KProvider)),
      mapModel := Pick(s.mapModel, FieldText(root, Map, KModel)),
      mapEffort := Pick(s.mapEffort, FieldText(root, Map, KEffort)),
      mapTimeout := Pick(s.mapTimeout, FieldText(root, Map, KTimeout)))
  }

  /** What one configuration file makes of the settings before it. */
  function Loaded(root: Root, s: Settings): Settings {
    var applied := Sectioned(root, Layered(root, s));
    applied.(customTheme := if CustomOf(root).Some? then CustomOf(root) else s.customTheme)
  }

  /** Flat keys that are the only flat spelling of a setting of one value; the theme is not spelled flat any more. */
  predicate HasOneSpelling(flat: FlatKey) {
    flat != TransparentSnake && flat != TransparentCamel && flat != TestFilePatterns && flat != ThemeName
  }

  /** The setting a flat key is about; patterns are not one value. */
  function SettingOf(s: Settings, flat: FlatKey): string {
    match flat
    case Mode => s.mode
    case ShowSidebar => s.showSidebar
    case LineNumbers => s.lineNumbers
    case WrapLines => s.wrapLines
    case HunkHeaders => s.hunkHeaders
    case AgentNotes => s.agentNotes
    case TransparentSnake => s.transparent
    case TransparentCamel => s.transparent
    case ColorMoved => s.colorMoved
    case CopyDecorations => s.copyDecorations
    case Vcs => s.vcs
    case Watch => s.watch
    case ExcludeUntracked => s.excludeUntracked
    case PromptSave => s.promptSave
    case ThemeName => s.theme
    case ReviewMessage => s.reviewMessage
    case TestsLast => s.testsLast
    case TestFilePatterns => ""
    case AskEnabled => s.askEnabled
    case AskProvider => s.askProvider
    case AskModel => s.askModel
    case AskThinking => s.askThinking
    case AskTimeout => s.askTimeout
    case AiSummaries => s.aiSummaries
    case StartOnMap => s.startOnMap
    case MapServer => s.mapServer
    case MapTokenFile => s.mapTokenFile
  }

  class ResolvedConfig {
    var settings: Settings

    constructor (settings: Settings)
      ensures this.settings == settings
    {
      this.settings := settings;
    }

    method ApplyLayer(root: Root)
      modifies this
      ensures settings == Layered(root, old(settings))
    {
      hide FlatValue, TextOf, FlatText, FlatTransparent;
      settings := settings.(mode := Pick(settings.mode, FlatText(root, Mode)));
      settings := settings.(vcs := Pick(settings.vcs, FlatText(root, Vcs)));
      settings := settings.(showSidebar := Pick(settings.showSidebar, FlatText(root, ShowSidebar)));
      settings := settings.(watch := Pick(settings.watch, FlatText(root, Watch)));
      settings := settings.(excludeUntracked := Pick(settings.excludeUntracked, FlatText(root, ExcludeUntracked)));
      settings := settings.(lineNumbers := Pick(settings.lineNumbers, FlatText(root, LineNumbers)));
      settings := settings.(wrapLines := Pick(settings.wrapLines, FlatText(root, WrapLines)));
      settings := settings.(hunkHeaders := Pick(settings.hunkHeaders, FlatText(root, HunkHeaders)));
      settings := settings.(agentNotes := Pick(settings.agentNotes, FlatText(root, AgentNotes)));
      settings := settings.(copyDecorations := Pick(settings.copyDecorations, FlatText(root, CopyDecorations)));
      settings := settings.(promptSave := Pick(settings.promptSave, FlatText(root, PromptSave)));
      settings := settings.(transparent := Pick(settings.transparent, FlatTransparent(root)));
      settings := settings.(colorMoved := Pick(settings.colorMoved, FlatText(root, ColorMoved)));
      settings := settings.(mapServer := Pick(settings.mapServer, FlatText(root, MapServer)));
      settings := settings.(mapTokenFile := Pick(settings.mapTokenFile, FlatText(root, MapTokenFile)));
      settings := settings.(aiSummaries := Pick(settings.aiSummaries, FlatText(root, AiSummaries)));
      settings := settings.(startOnMap := Pick(settings.startOnMap, FlatText(root, StartOnMap)));
      settings := settings.(testsLast := Pick(settings.testsLast, FlatText(root, TestsLast)));
      settings := settings.(askEnabled := Pick(settings.askEnabled, FlatText(root, AskEnabled)));
      settings := settings.(askProvider := Pick(settings.askProvider, FlatText(root, AskProvider)));
      settings := settings.(askModel := Pick(settings.askModel, FlatText(root, AskModel)));
      settings := settings.(askThinking := Pick(settings.askThinking, FlatText(root, AskThinking)));
      settings := settings.(askTimeout := Pick(settings.askTimeout, FlatText(root, AskTimeout)));
      settings := settings.(reviewMessage := Pick(settings.reviewMessage, FlatText(root, ReviewMessage)));
      settings := settings.(patterns := Extended(settings.patterns, PatternsOf(FlatValue(root, TestFilePatterns))));
    }

    method ApplySections(root: Root)
      modifies this
      ensures settings == Sectioned(root, old(settings))
    {
      hide FieldValue, FieldText, TextOf, NameOfTheme;
      settings := settings.(mode := Pick(settings.mode, FieldText(root, View, KMode)));
      settings := settings.(vcs := Pick(settings.vcs, FieldText(root, General, KVcs)));
      settings := settings.(showSidebar := Pick(settings.showSidebar, FieldText(root, View, KShowSidebar)));
      settings := settings.(watch := Pick(settings.watch, FieldText(root, General, KWatch)));
      settings := settings.(excludeUntracked := Pick(settings.excludeUntracked,
        FieldText(root, General, KExcludeUntracked)));
      settings := settings.(lineNumbers := Pick(settings.lineNumbers, FieldText(root, View, KLineNumbers)));
      settings := settings.(wrapLines := Pick(settings.wrapLines, FieldText(root, View, KWrapLines)));
      settings := settings.(hunkHeaders := Pick(settings.hunkHeaders, FieldText(root, View, KHunkHeaders)));
      settings := settings.(agentNotes := Pick(settings.agentNotes, FieldText(root, View, KAgentNotes)));
      settings := settings.(copyDecorations := Pick(settings.copyDecorations, FieldText(root, View, KCopyDecorations)));
      settings := settings.(promptSave := Pick(settings.promptSave, FieldText(root, General, KPromptSave)));
      settings := settings.(transparent := Pick(settings.transparent, FieldText(root, View, KTransparent)));
      settings := settings.(colorMoved := Pick(settings.colorMoved, FieldText(root, View, KColorMoved)));
      settings := settings.(mapServer := Pick(settings.mapServer, FieldText(root, Map, KServer)));
      settings := settings.(mapTokenFile := Pick(settings.mapTokenFile, FieldText(root, Map, KTokenFile)));
      settings := settings.(aiSummaries := Pick(settings.aiSummaries, FieldText(root, Map, KEnabled)));
      settings := settings.(startOnMap := Pick(settings.startOnMap, FieldText(root, Map, KStartOn)));
      settings := settings.(testsLast := Pick(settings.testsLast, FieldText(root, Review, KTestsLast)));
      settings := settings.(askEnabled := Pick(settings.askEnabled, FieldText(root, Ask, KEnabled)));
      settings := settings.(askProvider := Pick(settings.askProvider, FieldText(root, Ask, KProvider)));
      settings := settings.(askModel := Pick(settings.askModel, FieldText(root, Ask, KModel)));
      settings := settings.(askThinking := Pick(settings.askThinking, FieldText(root, Ask, KEffort)));
      settings := settings.(askTimeout := Pick(settings.askTimeout, FieldText(root, Ask, KTimeout)));
      settings := settings.(reviewMessage := Pick(settings.reviewMessage, FieldText(root, Review, KMessage)));
      settings := settings.(theme := Pick(settings.theme, TextOf(NameOfTheme(root))));
      settings := settings.(patterns := Extended(settings.patterns,
        PatternsOf(FieldValue(root, Place(Review, KPatterns)))));
      settings := settings.(mapBackend := Pick(settings.mapBackend, FieldText(root, Map, OtherKey("backend"))));
      settings := settings.(mapProvider := Pick(settings.mapProvider, FieldText(root, Map, KProvider)));
      settings := settings.(mapModel := Pick(settings.mapModel, FieldText(root, Map, KModel)));
      settings := settings.(mapEffort := Pick(settings.mapEffort, FieldText(root, Map, KEffort)));
      settings := settings.(mapTimeout := Pick(settings.mapTimeout, FieldText(root, Map, KTimeout)));
    }

    /** Applies one file: flat keys first, so that a file carrying both spellings resolves in favour of the section. */
    method Load(root: Root)
      modifies this
      ensures settings == Loaded(root, old(settings))
    {
      ApplyLayer(root);
      ApplySections(root);
      if CustomOf(root).Some? {
        settings := settings.(customTheme := CustomOf(root));
      }
    }
  }
}
