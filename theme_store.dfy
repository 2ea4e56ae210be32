/**
 * The theme store (src/stores/themeStore.ts, record types in src/types/theme.ts):
 * the light/dark mode, the messaging-service look, the colour scheme in use and
 * the user's own colour overrides. A colour scheme is a dictionary from colour
 * key to colour string; a partial scheme is one that may lack keys.
 */
module ThemeStore {
  import opened Options

  datatype ThemeMode = Light | Dark

  datatype SnsTheme = Line | X | Instagram | Discord | Slack

  datatype ColorKey =
    | Primary | Secondary | Background | Surface | Text | TextSecondary
    | SenderBubble | ReceiverBubble | Border

  type Colors = map<ColorKey, string>

  /** A full scheme has every colour key. */
  predicate Complete(c: Colors) {
    forall k: ColorKey :: k in c
  }

  /** The nine keys, by name. */
  const ALL_KEYS: set<ColorKey> :=
    {Primary, Secondary, Background, Surface, Text, TextSecondary, SenderBubble, ReceiverBubble, Border}

  lemma EveryKeyListed()
    ensures forall k: ColorKey :: k in ALL_KEYS
  {
    forall k: ColorKey
      ensures k in ALL_KEYS
    {
      match k
      case Primary =>
      case Secondary =>
      case Background =>
      case Surface =>
      case Text =>
      case TextSecondary =>
      case SenderBubble =>
      case ReceiverBubble =>
      case Border =>
    }
  }

  /**
   * `{ ...base, ...over }` on colour records: the keys of both, with `over`
   * winning where both have one.
   */
  function Overlay(base: Colors, over: Colors): (r: Colors)
    ensures forall k :: k in r <==> k in base || k in over
    ensures forall k :: k in over ==> r[k] == over[k]
    ensures forall k :: k in base && k !in over ==> r[k] == base[k]
  {
    base + over
  }

  /** Overlaying twice with the same record is overlaying once; overlays accumulate. */
  lemma OverlayLaws(a: Colors, b: Colors, c: Colors)
    ensures Overlay(Overlay(a, b), b) == Overlay(a, b)
    ensures Overlay(Overlay(a, b), c) == Overlay(a, Overlay(b, c))
  {
  }

  function Scheme(primary: string, secondary: string, background: string, surface: string, text: string,
                  textSecondary: string, senderBubble: string, receiverBubble: string, border: string): (c: Colors)
    ensures Complete(c)
  {
    EveryKeyListed();
    var c := map[Primary := primary, Secondary := secondary, Background := background, Surface := surface,
                 Text := text, TextSecondary := textSecondary, SenderBubble := senderBubble,
                 ReceiverBubble := receiverBubble, Border := border];
    assert ALL_KEYS <= c.Keys;
    c
  }

  /** The built-in scheme of each look. */
  function DefaultColors(theme: SnsTheme): (c: Colors)
    ensures Complete(c)
  {
    match theme
    case Line =>
      Scheme("#06C755", "#00B900", "#FFFFFF", "#F5F5F5", "#111111", "#666666", "#06C755", "#F0F0F0", "#E5E5E5")
    case X =>
      Scheme("#1DA1F2", "#14171A", "#FFFFFF", "#F7F9F9", "#14171A", "#657786", "#1DA1F2", "#E8F5FE", "#E1E8ED")
    case Instagram =>
      Scheme("#E4405F", "#833AB4", "#FFFFFF", "#FAFAFA", "#262626", "#8E8E8E", "#E4405F", "#EFEFEF", "#DBDBDB")
    case Discord =>
      Scheme("#5865F2", "#4752C4", "#36393F", "#2F3136", "#DCDDDE", "#96989D", "#5865F2", "#40444B", "#202225")
    case Slack =>
      Scheme("#4A154B", "#611F69", "#FFFFFF", "#F8F8F8", "#1D1C1D", "#616061", "#1264A3", "#F4EDE4", "#E0E0E0")
  }

  /** `ThemeConfig`; `customColors` is absent until the user first overrides a colour. */
  datatype ThemeConfig = ThemeConfig(mode: ThemeMode, snsTheme: SnsTheme, colors: Colors, customColors: Option<Colors>)

  /** Spreading an absent record adds no key. */
  function CustomOrEmpty(custom: Option<Colors>): Colors {
    if custom.Some? then custom.value else map[]
  }

  /** The initial configuration: light, the LINE look and its colours, no overrides. */
  function InitialTheme(): ThemeConfig {
    ThemeConfig(Light, Line, DefaultColors(Line), None)
  }

  /**
   * What every reachable configuration satisfies: the scheme in use is the
   * current look's built-in scheme with the overrides laid over it. So the
   * scheme has every key and every override is in effect.
   */
  ghost predicate Canonical(config: ThemeConfig) {
    config.colors == Overlay(DefaultColors(config.snsTheme), CustomOrEmpty(config.customColors))
  }

  lemma CanonicalConsequences(config: ThemeConfig)
    requires Canonical(config)
    ensures Complete(config.colors)
    ensures forall k :: k in CustomOrEmpty(config.customColors) ==> config.colors[k] == CustomOrEmpty(config.customColors)[k]
    ensures forall k :: k !in CustomOrEmpty(config.customColors) ==> config.colors[k] == DefaultColors(config.snsTheme)[k]
  {
  }

  class ThemeState {
    var config: ThemeConfig

    ghost predicate Valid()
      reads this
    {
      Canonical(config)
    }

    constructor ()
      ensures config == InitialTheme() && Valid()
    {
      config := InitialTheme();
    }

    /** Changes the mode only. */
    method SetThemeMode(mode: ThemeMode)
      modifies this
      ensures config == old(config).(mode := mode)
      ensures old(Valid()) ==> Valid()
    {
      config := config.(mode := mode);
    }

    /**
     * Switches the look: the new look's scheme with the overrides laid over it,
     * so a colour the user chose survives the switch.
     */
    method SetSnsTheme(theme: SnsTheme)
      modifies this
      ensures config == old(config).(snsTheme := theme, colors := Overlay(DefaultColors(theme), CustomOrEmpty(old(config).customColors)))
      ensures Valid()
    {
      config := config.(snsTheme := theme, colors := Overlay(DefaultColors(theme), CustomOrEmpty(config.customColors)));
    }

    /**
     * Records further overrides and applies them to the scheme in use; the
     * other colours keep their current values.
     */
    method SetCustomColors(colors: Colors)
      modifies this
      ensures config == old(config).(customColors := Some(Overlay(CustomOrEmpty(old(config).customColors), colors)),
                                     colors := Overlay(old(config).colors, colors))
      ensures forall k :: k !in colors && k in old(config).colors ==> config.colors[k] == old(config).colors[k]
      ensures old(Valid()) ==> Valid()
    {
      OverlayLaws(DefaultColors(config.snsTheme), CustomOrEmpty(config.customColors), colors);
      config := config.(customColors := Some(Overlay(CustomOrEmpty(config.customColors), colors)),
                        colors := Overlay(config.colors, colors));
    }

    /** Back to the initial configuration; the overrides are dropped. */
    method ResetTheme()
      modifies this
      ensures config == InitialTheme() && Valid()
    {
      config := InitialTheme();
    }
  }
}
