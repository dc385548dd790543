// The effect catalogue and the EffectManager of src/core/effects/index.ts:
// a static table from effect name to category, and the object that owns the
// tick and the state record and dispatches init, step and render to the
// module of the effect's category.
module Effects {
  import opened Types
  import opened Utils
  import opened Surface
  import TextEffects
  import AmbientEffects
  import ColorEffects

  datatype Category = TextCategory | AmbientCategory | ColorCategory

  datatype EffectInfo = EffectInfo(category: Category, name: string, description: string)

  /** The text section of EFFECTS. */
  const TextInfos: map<string, EffectInfo> := map[
    "fixed" := EffectInfo(TextCategory, "Fixed", "Static display"),
    "scroll_ltr" := EffectInfo(TextCategory, "Scroll Left", "Text scrolls left to right"),
    "scroll_rtl" := EffectInfo(TextCategory, "Scroll Right", "Text scrolls right to left"),
    "blink" := EffectInfo(TextCategory, "Blink", "Text blinks on/off"),
    "breeze" := EffectInfo(TextCategory, "Breeze", "Gentle wave brightness"),
    "snow" := EffectInfo(TextCategory, "Snow", "Sparkle effect"),
    "laser" := EffectInfo(TextCategory, "Laser", "Scanning beam"),
    "fade" := EffectInfo(TextCategory, "Fade", "Fade in/out"),
    "typewriter" := EffectInfo(TextCategory, "Typewriter", "Characters appear one by one"),
    "bounce" := EffectInfo(TextCategory, "Bounce", "Text bounces back and forth"),
    "sparkle" := EffectInfo(TextCategory, "Sparkle", "Random sparkle overlay"),
    "scroll_up" := EffectInfo(TextCategory, "Scroll Up", "Text scrolls upward"),
    "scroll_down" := EffectInfo(TextCategory, "Scroll Down", "Text scrolls downward"),
    "dissolve" := EffectInfo(TextCategory, "Dissolve", "Random pixel dissolve"),
    "blinds" := EffectInfo(TextCategory, "Blinds", "Vertical blinds reveal"),
    "wipe" := EffectInfo(TextCategory, "Wipe", "Column-by-column wipe with cursor"),
    "scan_horiz" := EffectInfo(TextCategory, "Scan Horizontal", "Horizontal scan beam reveals text"),
    "scan_vert" := EffectInfo(TextCategory, "Scan Vertical", "Vertical scan beam reveals text"),
    "grow_up" := EffectInfo(TextCategory, "Grow Up", "Rows reveal from bottom to top"),
    "grow_down" := EffectInfo(TextCategory, "Grow Down", "Rows reveal from top to bottom"),
    "opening" := EffectInfo(TextCategory, "Opening", "Center-outward expanding reveal"),
    "closing" := EffectInfo(TextCategory, "Closing", "Ends-inward closing reveal"),
    "slice" := EffectInfo(TextCategory, "Slice", "Columns enter one at a time from the right"),
    "mesh" := EffectInfo(TextCategory, "Mesh", "Columns move in alternating up/down directions"),
    "random" := EffectInfo(TextCategory, "Random", "Pixels appear and disappear randomly"),
    "scroll_up_left" := EffectInfo(TextCategory, "Scroll Up-Left", "Diagonal scroll up and to the left"),
    "scroll_up_right" := EffectInfo(TextCategory, "Scroll Up-Right", "Diagonal scroll up and to the right"),
    "scroll_down_left" := EffectInfo(TextCategory, "Scroll Down-Left", "Diagonal scroll down and to the left"),
    "scroll_down_right" := EffectInfo(TextCategory, "Scroll Down-Right", "Diagonal scroll down and to the right")
  ]

  /** The ambient section of EFFECTS, the HUB75-inspired panel effects included. */
  const AmbientInfos: map<string, EffectInfo> := map[
    "rainbow" := EffectInfo(AmbientCategory, "Rainbow", "HSV rainbow gradient"),
    "matrix" := EffectInfo(AmbientCategory, "Matrix", "Digital rain effect"),
    "plasma" := EffectInfo(AmbientCategory, "Plasma", "Classic plasma waves"),
    "gradient" := EffectInfo(AmbientCategory, "Gradient", "Moving color gradients"),
    "fire" := EffectInfo(AmbientCategory, "Fire", "Fire/flame simulation"),
    "water" := EffectInfo(AmbientCategory, "Water", "Ripple/wave effect"),
    "stars" := EffectInfo(AmbientCategory, "Stars", "Twinkling starfield"),
    "confetti" := EffectInfo(AmbientCategory, "Confetti", "Falling colored particles"),
    "plasma_wave" := EffectInfo(AmbientCategory, "Plasma Wave", "Multi-frequency sine waves"),
    "radial_pulse" := EffectInfo(AmbientCategory, "Radial Pulse", "Expanding ring patterns"),
    "hypnotic" := EffectInfo(AmbientCategory, "Hypnotic", "Spiral pattern"),
    "lava" := EffectInfo(AmbientCategory, "Lava", "Flowing lava/magma"),
    "aurora" := EffectInfo(AmbientCategory, "Aurora", "Northern lights"),
    "starfield" := EffectInfo(AmbientCategory, "Starfield", "3D starfield with depth"),
    "fireworks" := EffectInfo(AmbientCategory, "Fireworks", "Launching fireworks with particle bursts"),
    "rain_storm" := EffectInfo(AmbientCategory, "Rain Storm", "Rain with lightning flashes"),
    "munch" := EffectInfo(AmbientCategory, "Munch", "XOR bit-pattern animation"),
    "bouncing" := EffectInfo(AmbientCategory, "Bouncing", "Bouncing colored particles with trails"),
    "flow_field" := EffectInfo(AmbientCategory, "Flow Field", "Particles following noise-based flow"),
    "attract" := EffectInfo(AmbientCategory, "Attract", "Particles orbiting a central attractor"),
    "snake" := EffectInfo(AmbientCategory, "Snake", "Colored snakes moving with fading trails"),
    "pendulum_wave" := EffectInfo(AmbientCategory, "Pendulum Wave", "Oscillating dots forming wave patterns"),
    "radar" := EffectInfo(AmbientCategory, "Radar", "Rotating radar sweep with fading trail")
  ]

  /** The colour section of EFFECTS. */
  const ColorInfos: map<string, EffectInfo> := map[
    "color_cycle" := EffectInfo(ColorCategory, "Color Cycle", "Cycle through colors"),
    "rainbow_text" := EffectInfo(ColorCategory, "Rainbow Text", "Rainbow gradient on text"),
    "neon" := EffectInfo(ColorCategory, "Neon", "Pulsing neon glow")
  ]

  /** EFFECTS: the info of every effect, by key; a later section's entry
      would win over an earlier one's, as in an object literal. */
  const Effects: map<string, EffectInfo> := TextInfos + AmbientInfos + ColorInfos

  const TextKeys: seq<string> := [
    "fixed", "scroll_ltr", "scroll_rtl", "blink", "breeze", "snow", "laser", "fade", "typewriter", "bounce",
    "sparkle", "scroll_up", "scroll_down", "dissolve", "blinds", "wipe", "scan_horiz", "scan_vert",
    "grow_up", "grow_down", "opening", "closing", "slice", "mesh", "random", "scroll_up_left",
    "scroll_up_right", "scroll_down_left", "scroll_down_right"]
  const AmbientKeys: seq<string> := [
    "rainbow", "matrix", "plasma", "gradient", "fire", "water", "stars", "confetti", "plasma_wave",
    "radial_pulse", "hypnotic", "lava", "aurora", "starfield", "fireworks", "rain_storm", "munch",
    "bouncing", "flow_field", "attract", "snake", "pendulum_wave", "radar"]
  const ColorKeys: seq<string> := ["color_cycle", "rainbow_text", "neon"]

  /** ALL_EFFECTS: the keys of EFFECTS in declaration order, the order
      Object.keys and Object.entries list them in. */
  const AllEffects: seq<string> := TextKeys + AmbientKeys + ColorKeys

  const FixedInfo := EffectInfo(TextCategory, "Fixed", "Static display")

  /** The listed keys are exactly the keys of EFFECTS. */
  lemma KeysListed(name: string)
    ensures name in AllEffects <==> name in Effects
  {
    TextKeysListed(name);
    AmbientKeysListed(name);
    ColorKeysListed(name);
  }

  lemma TextKeysListed(name: string)
    ensures name in TextKeys <==> name in TextInfos
  {
  }

  lemma AmbientKeysListed(name: string)
    ensures name in AmbientKeys <==> name in AmbientInfos
  {
  }

  lemma ColorKeysListed(name: string)
    ensures name in ColorKeys <==> name in ColorInfos
  {
  }

  /** Each section of EFFECTS holds entries of its own category only. */
  lemma SectionCategories(name: string)
    ensures name in TextInfos ==> TextInfos[name].category == TextCategory
    ensures name in AmbientInfos ==> AmbientInfos[name].category == AmbientCategory
    ensures name in ColorInfos ==> ColorInfos[name].category == ColorCategory
  {
    TextSection(name);
    AmbientSection(name);
  }

  lemma TextSection(name: string)
    ensures name in TextInfos ==> TextInfos[name].category == TextCategory
  {
  }

  lemma AmbientSection(name: string)
    ensures name in AmbientInfos ==> AmbientInfos[name].category == AmbientCategory
  {
  }

  /** The keys of `keys` whose entry in `m` has category `c`, in order:
      the filter behind TEXT_EFFECTS, AMBIENT_EFFECTS, COLOR_EFFECTS and
      getEffectsByCategory, applied to EFFECTS. */
  function Filter(m: map<string, EffectInfo>, keys: seq<string>, c: Category): (r: seq<string>)
    ensures |r| <= |keys|
    ensures forall n :: n in r <==> n in keys && n in m && m[n].category == c
  {
    if keys == [] then []
    else
      var rest := Filter(m, keys[1..], c);
      assert forall n :: n in keys <==> n == keys[0] || n in keys[1..];
      if keys[0] in m && m[keys[0]].category == c then [keys[0]] + rest else rest
  }

  /** Every key that has an entry goes to exactly one of the three lists,
      so their lengths add up. */
  lemma {:induction false} FilterPartition(m: map<string, EffectInfo>, keys: seq<string>)
    requires forall n :: n in keys ==> n in m
    ensures |Filter(m, keys, TextCategory)| + |Filter(m, keys, AmbientCategory)| + |Filter(m, keys, ColorCategory)| == |keys|
  {
    if keys != [] {
      assert keys[0] in keys;
      FilterPartition(m, keys[1..]);
    }
  }

  /** Each key of `keys` with its entry in `m`. */
  function Paired(keys: seq<string>, m: map<string, EffectInfo>): (r: seq<(string, EffectInfo)>)
    requires forall n :: n in keys ==> n in m
    ensures |r| == |keys| && forall i :: 0 <= i < |r| ==> r[i] == (keys[i], m[keys[i]])
  {
    seq(|keys|, i requires 0 <= i < |keys| => (keys[i], m[keys[i]]))
  }

  /** Every entry of a category is among the keys the category's filter
      keeps. */
  lemma {:induction false} FilterKeeps(c: Category, n: string)
    requires n in Effects && Effects[n].category == c
    ensures n in Filter(Effects, AllEffects, c)
  {
    KeysListed(n);
  }

  /** getEffectsByCategory: each key of the category, in order, with its info. */
  function EffectsByCategory(c: Category): (r: seq<(string, EffectInfo)>)
    ensures forall i :: 0 <= i < |r| ==> r[i].0 in Effects && r[i].1 == Effects[r[i].0] && r[i].1.category == c
  {
    Paired(Filter(Effects, AllEffects, c), Effects)
  }

  /** getEffectsByCategory misses no effect of the category. */
  lemma EffectsByCategoryComplete(c: Category, n: string)
    requires n in Effects && Effects[n].category == c
    ensures exists i :: 0 <= i < |EffectsByCategory(c)| && EffectsByCategory(c)[i].0 == n
  {
    FilterKeeps(c, n);
    var keys := Filter(Effects, AllEffects, c);
    PairedHas(Effects, keys, n);
    assert EffectsByCategory(c) == Paired(keys, Effects);
  }

  /** A listed key has its pair. */
  lemma PairedHas(m: map<string, EffectInfo>, keys: seq<string>, n: string)
    requires forall k :: k in keys ==> k in m
    requires n in keys
    ensures exists i :: 0 <= i < |Paired(keys, m)| && Paired(keys, m)[i].0 == n
  {
    var i :| 0 <= i < |keys| && keys[i] == n;
    assert Paired(keys, m)[i].0 == n;
  }

  const TextEffectNames: seq<string> := Filter(Effects, AllEffects, TextCategory)
  const AmbientEffectNames: seq<string> := Filter(Effects, AllEffects, AmbientCategory)
  const ColorEffectNames: seq<string> := Filter(Effects, AllEffects, ColorCategory)

  /** getEffectInfo: the EFFECTS entry, or the `fixed` entry for a name
      EFFECTS does not hold as its own key. */
  function GetEffectInfo(name: string): EffectInfo
  {
    if name in Effects then Effects[name] else FixedInfo
  }

  /** The category getEffectInfo gives a name, read off the key lists: the
      section that lists it, and text (`fixed`'s) for a name none lists. */
  function CategoryOf(name: string): Category
  {
    if name in ColorKeys then ColorCategory
    else if name in AmbientKeys then AmbientCategory
    else TextCategory
  }

  /** CategoryOf is the category of getEffectInfo's result. */
  lemma CategoryOfInfo(name: string)
    ensures CategoryOf(name) == GetEffectInfo(name).category
  {
    KeysListed(name);
    ColorKeysListed(name);
    AmbientKeysListed(name);
    SectionCategories(name);
  }

  /** isAmbient */
  predicate IsAmbient(name: string)
  {
    CategoryOf(name) == AmbientCategory
  }

  /** needsAnimation: every name but "fixed", known or not. */
  predicate NeedsAnimation(name: string)
  {
    name != "fixed"
  }

  /** `fixed` is the text effect whose info is the fallback. */
  lemma FixedEntry()
    ensures "fixed" in AllEffects && "fixed" in Effects && Effects["fixed"] == FixedInfo
    ensures CategoryOf("fixed") == TextCategory
  {
    FixedInText();
    FixedOnlyInText();
    AmbientKeysListed("fixed");
    ColorKeysListed("fixed");
  }

  lemma FixedInText()
    ensures "fixed" in TextKeys && "fixed" in TextInfos && TextInfos["fixed"] == FixedInfo
  {
  }

  lemma FixedOnlyInText()
    ensures "fixed" !in AmbientKeys && "fixed" !in ColorKeys
  {
  }

  /** A known name gets its own entry; an unknown name gets `fixed`'s, so
      it is a text effect, needs animation and is not ambient. */
  lemma GetEffectInfoFallback(name: string)
    ensures name in AllEffects ==> GetEffectInfo(name) == Effects[name]
    ensures name !in AllEffects ==>
      GetEffectInfo(name) == GetEffectInfo("fixed") && CategoryOf(name) == TextCategory &&
      NeedsAnimation(name) && !IsAmbient(name)
  {
    KeysListed(name);
    if name !in AllEffects {
      UnknownIsFixed(name);
    }
  }

  lemma UnknownIsFixed(name: string)
    requires name !in Effects && name !in AllEffects
    ensures GetEffectInfo(name) == GetEffectInfo("fixed") && name != "fixed"
  {
    FixedEntry();
  }

  /** isAmbient holds exactly for the names AMBIENT_EFFECTS lists. */
  lemma AmbientListed(name: string)
    ensures IsAmbient(name) <==> name in AmbientEffectNames
  {
    KeysListed(name);
    CategoryOfInfo(name);
  }

  /** TEXT_EFFECTS, AMBIENT_EFFECTS and COLOR_EFFECTS partition ALL_EFFECTS. */
  lemma CategoryLists(name: string)
    ensures name in AllEffects <==>
      name in TextEffectNames || name in AmbientEffectNames || name in ColorEffectNames
    ensures !(name in TextEffectNames && name in AmbientEffectNames)
    ensures !(name in TextEffectNames && name in ColorEffectNames)
    ensures !(name in AmbientEffectNames && name in ColorEffectNames)
  {
    KeysListed(name);
  }

  /** The three lists together are as long as ALL_EFFECTS. */
  lemma CategoryListsLength()
    ensures |TextEffectNames| + |AmbientEffectNames| + |ColorEffectNames| == |AllEffects|
  {
    forall n | n in AllEffects ensures n in Effects {
      KeysListed(n);
    }
    FilterPartition(Effects, AllEffects);
  }

  // ---------------------------------------------------------------------
  // getEffectInfo as written: `EFFECTS[name] || EFFECTS.fixed`

  /** What `EFFECTS[name]` yields: the own entry, a truthy property every
      object literal inherits from Object.prototype (which has no category),
      or undefined. */
  datatype Resolved = Own(info: EffectInfo) | Inherited | Missing

  const InheritedNames: set<string> := {
    "constructor", "toString", "toLocaleString", "valueOf", "hasOwnProperty", "isPrototypeOf",
    "propertyIsEnumerable", "__proto__", "__defineGetter__", "__defineSetter__",
    "__lookupGetter__", "__lookupSetter__"}

  function Index(name: string): Resolved
  {
    if name in Effects then Own(Effects[name])
    else if name in InheritedNames then Inherited
    else Missing
  }

  /** The category getEffectInfo's result carries as the source writes it:
      none for an inherited property, which then matches no case of the
      init, step and render dispatch. */
  function CategoryAsWritten(name: string): (r: Option<Category>)
    ensures Index(name).Own? ==> r == Some(Index(name).info.category)
  {
    match Index(name)
    case Own(info) => Some(info.category)
    case Inherited => None
    case Missing => Some(FixedInfo.category)
  }

  /** "toString" is not an effect, yet the `||` fallback does not apply to
      it: the lookup returns no category, so the manager neither inits nor
      renders anything for it, while the corrected lookup treats it as
      `fixed` like every other unknown name. */
  lemma InheritedNameSkipsFallback()
    ensures "toString" !in AllEffects
    ensures CategoryAsWritten("toString") == None
    ensures CategoryOf("toString") == TextCategory && GetEffectInfo("toString") == FixedInfo
  {
    ToStringNotAKey();
    assert "toString" in InheritedNames;
  }

  lemma ToStringUnlisted()
    ensures "toString" !in TextKeys && "toString" !in AmbientKeys && "toString" !in ColorKeys
  {
  }

  lemma ToStringNotAKey()
    ensures "toString" !in AllEffects && "toString" !in Effects
  {
    ToStringUnlisted();
    KeysListed("toString");
  }

  // ---------------------------------------------------------------------
  // the manager

  /** The per-category state record, holding the fields the module of the
      effect's category keeps (`tick` and the options are held by the
      manager itself). */
  datatype EffectData =
    | TextData(text: TextEffects.TextState)
    | AmbientData(ambient: AmbientEffects.AmbientState)
    | ColorData(color: ColorEffects.ColorState)

  /** The state record initEffect leaves for a name: the starting state of
      the name's category module, built from the panel size, the options and
      the host's draws. */
  ghost predicate Started(name: string, opts: Options, data: EffectData, width: nat, height: nat, host: Host)
    requires host.Valid()
  {
    (CategoryOf(name) == TextCategory ==> data == TextData(TextEffects.Initial(name, width, height, host))) &&
    (CategoryOf(name) == AmbientCategory ==>
      data.AmbientData? && AmbientEffects.BuiltFor(name, data.ambient) &&
      AmbientEffects.Initial(data.ambient, width, height)) &&
    (CategoryOf(name) == ColorCategory ==> data == ColorData(ColorEffects.Init(name, opts)))
  }

  /** What a step makes of a state record at tick `tick`: the counters of a
      text effect updated, its sparkles brightened or restarted by the draws
      they take in turn, an ambient state advanced as its effect promises,
      a colour effect's phase moved on. */
  ghost predicate StepsTo(before: EffectData, after: EffectData, tick: int, width: nat, height: nat,
                          extendedWidth: nat, host: Host)
    requires host.Valid()
  {
    match before
    case TextData(t) =>
      after.TextData? &&
      if t.Sparkles? then
        after.text.Sparkles? && |after.text.sparkles| == |t.sparkles| &&
        forall i :: 0 <= i < |t.sparkles| ==>
          after.text.sparkles[i] == TextEffects.Twinkled(t.sparkles[i], width, height, host,
                                                         2 * TextEffects.Restarts(t.sparkles[..i]))
      else
        after.text == TextEffects.StepCounters(t, tick, width, height, extendedWidth)
    case AmbientData(a) => after.AmbientData? && AmbientEffects.Advanced(a, after.ambient, width, height, host)
    case ColorData(c) => after == ColorData(ColorEffects.Step(c))
  }

  /** The panel a render paints over `before`: the ambient picture, or each
      cell as the text or colour effect colours it. */
  function Frame(data: EffectData, tick: int, pixels: seq<string>, extendedPixels: seq<string>, extendedWidth: nat,
                 width: nat, height: nat, host: Host, before: seq<Rgb>): (r: seq<Rgb>)
    requires |before| == width * height
    ensures |r| == |before|
  {
    match data
    case AmbientData(a) => AmbientEffects.Picture(a, width, height, host, before)
    case TextData(t) =>
      seq(|before|, j requires 0 <= j < |before| =>
        TextEffects.Cell(t, tick, pixels, extendedPixels, extendedWidth, width, height, host.sin, j % width, j / width))
    case ColorData(c) =>
      seq(|before|, j requires 0 <= j < |before| => ColorEffects.Cell(c, pixels, width, j % width, j / width))
  }

  class EffectManager {
    const renderer: LedSurface
    var currentEffect: string
    var tick: int
    var options: Options
    var data: EffectData

    /** The panel size the manager was created for; the renderers replace
        the manager whenever their size changes. */
    ghost const width: nat
    ghost const height: nat

    /** The renderer keeps the manager's size, and an ambient or colour
        state record keeps its own invariant. */
    ghost predicate Valid()
      reads this, renderer
    {
      renderer.Valid() && renderer.width == width && renderer.height == height &&
      (data.AmbientData? ==> AmbientEffects.Valid(data.ambient, width, height)) &&
      (data.ColorData? ==> ColorEffects.Bounded(data.color))
    }

    /** The state record holds the fields of the current effect's category,
        so dispatching on the record is dispatching on the category. */
    ghost predicate Classified()
      reads this
    {
      match CategoryOf(currentEffect)
      case TextCategory => data.TextData?
      case AmbientCategory => data.AmbientData?
      case ColorCategory => data.ColorData?
    }

    /** A new manager shows `fixed` with tick 0 and an empty state record. */
    constructor (renderer: LedSurface)
      requires renderer.Valid()
      ensures Valid() && Classified() && this.renderer == renderer
      ensures currentEffect == "fixed" && tick == 0 && options == NoOptions && data == TextData(TextEffects.Plain)
      ensures width == renderer.width && height == renderer.height
    {
      this.renderer := renderer;
      currentEffect := "fixed";
      tick := 0;
      options := NoOptions;
      data := TextData(TextEffects.Plain);
      width := renderer.width;
      height := renderer.height;
      FixedOnlyInText();
    }

    /** initEffect: records the name, restarts the state record at tick 0
        with the options, and runs the init of exactly one module, the one
        of the name's category. */
    method InitEffect(name: string, opts: Options, host: Host)
      requires host.Valid() && renderer.Valid() && renderer.width == width && renderer.height == height
      modifies this
      ensures Valid() && Classified()
      ensures currentEffect == name && tick == 0 && options == opts
      ensures CategoryOf(name) == TextCategory ==>
        data == TextData(TextEffects.Initial(name, width, height, host))
      ensures CategoryOf(name) == AmbientCategory ==>
        data.AmbientData? && AmbientEffects.BuiltFor(name, data.ambient) &&
        AmbientEffects.Initial(data.ambient, width, height)
      ensures CategoryOf(name) == ColorCategory ==> data == ColorData(ColorEffects.Init(name, opts))
      ensures Started(name, opts, data, width, height, host)
    {
      currentEffect := name;
      tick := 0;
      options := opts;
      match CategoryOf(name) {
        case TextCategory =>
          var s := TextEffects.Init(name, renderer.width, renderer.height, host);
          data := TextData(s);
        case AmbientCategory =>
          var s := AmbientEffects.Init(name, renderer.width, renderer.height, host);
          data := AmbientData(s);
        case ColorCategory =>
          ColorEffects.RunBounded(name, opts, 0);
          data := ColorData(ColorEffects.Init(name, opts));
      }
    }

    /** step: tick goes up by exactly one, then the current effect's module
        steps its state. */
    method Step(host: Host)
      requires host.Valid() && Valid()
      modifies this
      ensures Valid()
      ensures tick == old(tick) + 1 && currentEffect == old(currentEffect) && options == old(options)
      ensures old(data).TextData? && !old(data).text.Sparkles? ==>
        data == TextData(TextEffects.StepCounters(old(data).text, tick, width, height, renderer.extendedWidth))
      ensures old(data).ColorData? ==> data == ColorData(ColorEffects.Step(old(data).color))
      ensures old(data).AmbientData? ==>
        data.AmbientData? && AmbientEffects.SameEffect(old(data).ambient, data.ambient)
      ensures StepsTo(old(data), data, tick, width, height, renderer.extendedWidth, host)
    {
      tick := tick + 1;
      match data {
        case TextData(s) =>
          var s' := TextEffects.Step(s, tick, renderer.width, renderer.height, renderer.extendedWidth, host);
          data := TextData(s');
        case AmbientData(s) =>
          var s' := AmbientEffects.Step(s, renderer.width, renderer.height, host);
          data := AmbientData(s');
        case ColorData(s) =>
          ColorEffects.StepBounded(s);
          data := ColorData(ColorEffects.Step(s));
      }
    }

    /** render: draws the current effect into the renderer's buffer; tick,
        the effect name and the state record are left as they are. */
    method Render(pixels: seq<string>, extendedPixels: seq<string>, extendedWidth: nat, host: Host)
      requires Valid()
      modifies renderer`buffer
      ensures Valid()
      ensures tick == old(tick) && currentEffect == old(currentEffect) && data == old(data)
      ensures data.AmbientData? ==>
        renderer.buffer == AmbientEffects.Picture(data.ambient, width, height, host, old(renderer.buffer))
      ensures data.TextData? ==> forall j :: 0 <= j < |renderer.buffer| ==>
        renderer.buffer[j] == TextEffects.Cell(data.text, tick, pixels, extendedPixels, extendedWidth, width, height,
                                               host.sin, j % width, j / width)
      ensures data.ColorData? ==> forall j :: 0 <= j < |renderer.buffer| ==>
        renderer.buffer[j] == ColorEffects.Cell(data.color, pixels, width, j % width, j / width)
      ensures renderer.buffer == Frame(data, tick, pixels, extendedPixels, extendedWidth, width, height, host,
                                       old(renderer.buffer))
    {
      match data {
        case AmbientData(s) =>
          AmbientEffects.Render(renderer, s, host);
        case TextData(s) =>
          TextEffects.Render(renderer, s, tick, pixels, extendedPixels, extendedWidth, host.sin);
        case ColorData(s) =>
          ColorEffects.Render(renderer, s, pixels);
      }
    }
  }

  /** An unknown name renders as `fixed` does: its state record has no
      fields, so every cell shows the parsed colour of the supplied grid. */
  lemma UnknownCopiesGrid(name: string, width: nat, height: nat, host: Host, tick: int, pixels: seq<string>,
                          extendedPixels: seq<string>, extendedWidth: nat, x: int, y: int)
    requires host.Valid() && name !in AllEffects
    ensures CategoryOf(name) == TextCategory
    ensures TextEffects.Cell(TextEffects.Initial(name, width, height, host), tick, pixels, extendedPixels,
                             extendedWidth, width, height, host.sin, x, y)
            == HexToRgb(TextEffects.CellAt(pixels, y * width + x))
  {
    InitNamesListed();
    TextEffects.InitialVariant(name, width, height, host);
  }

  /** Every name the text init has a case for is a text effect of EFFECTS. */
  lemma InitNamesListed()
    ensures forall n :: n in TextEffects.InitNames() ==> n in TextKeys
  {
  }
}
