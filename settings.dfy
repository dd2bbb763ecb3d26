/** The article settings record, the partial-record patches the form emits, the
    per-field option sets and the style variables the page is rendered with.
    The option lists and the default record live in a configuration module that is
    not part of this model: they enter every definition below as parameters. */
module ArticleSettings {

  /** One entry of an option list: the label a widget shows and the value the page uses. */
  datatype ArticleOption = ArticleOption(title: string, value: string)

  /** The five keys of the settings record, in the order the form lists them. */
  datatype Field = FontFamily | FontSize | FontColor | BackgroundColor | ContentWidth

  /** The settings record. */
  datatype ArticleState = ArticleState(
    fontFamilyOption: ArticleOption,
    fontSizeOption: ArticleOption,
    fontColor: ArticleOption,
    backgroundColor: ArticleOption,
    contentWidth: ArticleOption)

  /** Reads one field of a record by its key. */
  function Get(a: ArticleState, f: Field): ArticleOption
  {
    match f
    case FontFamily => a.fontFamilyOption
    case FontSize => a.fontSizeOption
    case FontColor => a.fontColor
    case BackgroundColor => a.backgroundColor
    case ContentWidth => a.contentWidth
  }

  /** `Partial<ArticleStateType>`: some of the keys, each with a value. */
  type Patch = map<Field, ArticleOption>

  /** `{ ...prev, ...patch }`: every key the patch carries overrides, the rest stay. */
  function Merge(prev: ArticleState, patch: Patch): (r: ArticleState)
    ensures forall f: Field :: f in patch ==> Get(r, f) == patch[f]
    ensures forall f: Field :: f !in patch ==> Get(r, f) == Get(prev, f)
  {
    ArticleState(
      if FontFamily in patch then patch[FontFamily] else prev.fontFamilyOption,
      if FontSize in patch then patch[FontSize] else prev.fontSizeOption,
      if FontColor in patch then patch[FontColor] else prev.fontColor,
      if BackgroundColor in patch then patch[BackgroundColor] else prev.backgroundColor,
      if ContentWidth in patch then patch[ContentWidth] else prev.contentWidth)
  }

  /** Merging two patches one after the other is merging their union, the later one
      winning on shared keys; merging the empty patch changes nothing. */
  lemma MergeCompose(s: ArticleState, p: Patch, q: Patch)
    ensures Merge(Merge(s, p), q) == Merge(s, p + q)
    ensures Merge(s, map[]) == s
  {
  }

  /** The option list offered for each key (`fontFamilyOptions`, `fontSizeOptions`,
      `fontColors`, `backgroundColors`, `contentWidthArr`). */
  datatype OptionSets = OptionSets(
    fontFamilyOptions: set<ArticleOption>,
    fontSizeOptions: set<ArticleOption>,
    fontColors: set<ArticleOption>,
    backgroundColors: set<ArticleOption>,
    contentWidthArr: set<ArticleOption>)

  function OptionsFor(sets: OptionSets, f: Field): set<ArticleOption>
  {
    match f
    case FontFamily => sets.fontFamilyOptions
    case FontSize => sets.fontSizeOptions
    case FontColor => sets.fontColors
    case BackgroundColor => sets.backgroundColors
    case ContentWidth => sets.contentWidthArr
  }

  /** Every field holds an entry of its own option list. */
  predicate Valid(sets: OptionSets, a: ArticleState)
  {
    forall f: Field :: Get(a, f) in OptionsFor(sets, f)
  }

  /** Every key a patch carries holds an entry of that key's option list. */
  predicate PatchValid(sets: OptionSets, patch: Patch)
  {
    forall f: Field :: f in patch ==> patch[f] in OptionsFor(sets, f)
  }

  /** A patch drawn from the option lists keeps a record within them. */
  lemma MergePreservesValid(sets: OptionSets, prev: ArticleState, patch: Patch)
    requires Valid(sets, prev) && PatchValid(sets, patch)
    ensures Valid(sets, Merge(prev, patch))
  {
  }

  /** The name of the style variable that carries a key's value. */
  function VarName(f: Field): string
  {
    match f
    case FontFamily => "--font-family"
    case FontSize => "--font-size"
    case FontColor => "--font-color"
    case BackgroundColor => "--bg-color"
    case ContentWidth => "--container-width"
  }

  /** `cssVars`: the five style variables of the page, each carrying the underlying
      value of one field of the record it is given, and nothing else. */
  function CssVars(applied: ArticleState): (vars: map<string, string>)
    ensures |vars| == 5
    ensures forall f: Field :: VarName(f) in vars && vars[VarName(f)] == Get(applied, f).value
    ensures forall name :: name in vars ==> exists f: Field :: VarName(f) == name
  {
    var vars := map[
      "--font-family" := applied.fontFamilyOption.value,
      "--font-size" := applied.fontSizeOption.value,
      "--font-color" := applied.fontColor.value,
      "--container-width" := applied.contentWidth.value,
      "--bg-color" := applied.backgroundColor.value];
    assert VarName(FontFamily) == "--font-family" && VarName(FontSize) == "--font-size";
    assert VarName(FontColor) == "--font-color" && VarName(BackgroundColor) == "--bg-color";
    assert VarName(ContentWidth) == "--container-width";
    vars
  }
}
