/**
 * The live preview of frontend/src/components/layout/PreviewSection.tsx: the request it
 * sends for the current seed colours, when a colour change refreshes it, and the device
 * frame settings chosen with the format buttons. The request's outcome is a parameter:
 * the palette the server returned, or None when the request failed.
 */
module PreviewSection {
  import opened Wrappers
  import opened PaletteVars
  import opened PaletteService
  import opened Dict
  import opened Swatches

  /** The seed colours the generator page passes down as props. */
  datatype Seeds = Seeds(primary: string, secondary: string, tertiary: string, isTertiaryEnabled: bool)

  datatype ToolbarStyle = LightToolbar | DarkToolbar
  datatype Navigation = TopBar | SideBar
  datatype LayoutType = DashboardLayout | LandingLayout

  /** What the device frame is given. */
  datatype Frame = Frame(variant: string, radius: int, showNotch: bool, toolbarStyle: ToolbarStyle,
                         navigationStyle: Navigation, logicalWidth: nat, logicalHeight: nat)

  /**
   * The body `fetchPreview` posts: both colours, and the tertiary colour with
   * `include_tertiary` exactly when the tertiary colour is enabled.
   */
  function PreviewPayload(seeds: Seeds): (r: PreviewRequest)
    ensures r.primary == seeds.primary && r.secondary == seeds.secondary
    ensures r.tertiary.Some? <==> seeds.isTertiaryEnabled
    ensures r.includeTertiary.Some? <==> seeds.isTertiaryEnabled
    ensures seeds.isTertiaryEnabled ==> r.tertiary == Some(seeds.tertiary) && r.includeTertiary == Some(true)
  {
    if seeds.isTertiaryEnabled then PreviewRequest(seeds.primary, seeds.secondary, Some(seeds.tertiary), Some(true))
    else PreviewRequest(seeds.primary, seeds.secondary, None, None)
  }

  /** The guard of the refresh effect: both colours are non-empty. */
  predicate AutoRefresh(seeds: Seeds) {
    seeds.primary != "" && seeds.secondary != ""
  }

  class Preview {
    var selectedFormat: string
    var radius: int
    var showNotch: bool
    var toolbarStyle: ToolbarStyle
    var navigationStyle: Navigation
    var colorMode: Mode
    var layoutType: LayoutType
    var isLoading: bool
    var previewData: Option<PreviewPalette>
    /** The preview requests sent so far, in order. */
    var requests: seq<PreviewRequest>

    /** The initial state: the browser format, radius 8, notch on, dark toolbar, top bar, light mode. */
    constructor ()
      ensures selectedFormat == "browser" && radius == 8 && showNotch
      ensures toolbarStyle == DarkToolbar && navigationStyle == TopBar
      ensures colorMode == Light && layoutType == LandingLayout
      ensures !isLoading && previewData.None? && requests == []
    {
      selectedFormat := "browser";
      radius := 8;
      showNotch := true;
      toolbarStyle := DarkToolbar;
      navigationStyle := TopBar;
      colorMode := Light;
      layoutType := LandingLayout;
      isLoading := false;
      previewData := None;
      requests := [];
    }

    /**
     * `handleFormatChange`: a deselection (null) changes nothing; phone and browser reset
     * the frame settings, with the notch on only for phone; any other format changes only
     * the format.
     */
    method HandleFormatChange(newFormat: Option<string>)
      modifies this
      ensures newFormat.None? ==>
        selectedFormat == old(selectedFormat) && radius == old(radius) && showNotch == old(showNotch)
        && toolbarStyle == old(toolbarStyle) && navigationStyle == old(navigationStyle)
      ensures newFormat.Some? ==> selectedFormat == newFormat.value
      ensures newFormat == Some("phone") || newFormat == Some("browser") ==>
        radius == 8 && showNotch == (newFormat == Some("phone")) && navigationStyle == TopBar && toolbarStyle == DarkToolbar
      ensures newFormat.Some? && newFormat != Some("phone") && newFormat != Some("browser") ==>
        radius == old(radius) && showNotch == old(showNotch)
        && toolbarStyle == old(toolbarStyle) && navigationStyle == old(navigationStyle)
      ensures colorMode == old(colorMode) && layoutType == old(layoutType)
      ensures isLoading == old(isLoading) && previewData == old(previewData) && requests == old(requests)
    {
      if newFormat.Some? {
        selectedFormat := newFormat.value;
        if newFormat.value == "phone" {
          radius := 8;
          showNotch := true;
          navigationStyle := TopBar;
          toolbarStyle := DarkToolbar;
        } else if newFormat.value == "browser" {
          radius := 8;
          showNotch := false;
          navigationStyle := TopBar;
          toolbarStyle := DarkToolbar;
        }
      }
    }

    /** The notch switch. */
    method SetShowNotch(checked: bool)
      modifies this
      ensures showNotch == checked
      ensures selectedFormat == old(selectedFormat) && radius == old(radius)
      ensures toolbarStyle == old(toolbarStyle) && navigationStyle == old(navigationStyle)
      ensures colorMode == old(colorMode) && layoutType == old(layoutType)
      ensures isLoading == old(isLoading) && previewData == old(previewData) && requests == old(requests)
    {
      showNotch := checked;
    }

    /**
     * `fetchPreview` for the given seeds: the request is sent, a returned palette replaces
     * the preview (a failure keeps the old one), and loading ends either way.
     */
    method FetchPreview(seeds: Seeds, outcome: Option<PreviewPalette>)
      modifies this
      ensures requests == old(requests) + [PreviewPayload(seeds)]
      ensures previewData == (if outcome.Some? then outcome else old(previewData))
      ensures !isLoading
      ensures selectedFormat == old(selectedFormat) && radius == old(radius) && showNotch == old(showNotch)
      ensures toolbarStyle == old(toolbarStyle) && navigationStyle == old(navigationStyle)
      ensures colorMode == old(colorMode) && layoutType == old(layoutType)
    {
      requests := requests + [PreviewPayload(seeds)];
      if outcome.Some? {
        previewData := outcome;
      }
      isLoading := false;
    }

    /**
     * A change of the seed props: the effect refreshes the preview, through the debounced
     * `fetchPreview`, only when both colours are non-empty; otherwise nothing happens.
     */
    method SeedsChanged(seeds: Seeds, outcome: Option<PreviewPalette>)
      modifies this
      ensures AutoRefresh(seeds) ==>
        requests == old(requests) + [PreviewPayload(seeds)] && !isLoading
        && previewData == (if outcome.Some? then outcome else old(previewData))
      ensures !AutoRefresh(seeds) ==> requests == old(requests) && isLoading == old(isLoading) && previewData == old(previewData)
      ensures selectedFormat == old(selectedFormat) && radius == old(radius) && showNotch == old(showNotch)
      ensures toolbarStyle == old(toolbarStyle) && navigationStyle == old(navigationStyle)
    {
      if seeds.primary != "" && seeds.secondary != "" {
        isLoading := true;
        FetchPreview(seeds, outcome);
      }
    }

    /** `handlePreview`, the manual button: it fetches whatever the colours are. */
    method HandlePreview(seeds: Seeds, outcome: Option<PreviewPalette>)
      modifies this
      ensures requests == old(requests) + [PreviewPayload(seeds)] && !isLoading
      ensures previewData == (if outcome.Some? then outcome else old(previewData))
      ensures selectedFormat == old(selectedFormat) && radius == old(radius) && showNotch == old(showNotch)
    {
      isLoading := true;
      FetchPreview(seeds, outcome);
    }

    /**
     * The device frame, shown for the phone and browser formats once a preview exists:
     * the notch only on a phone, and the chosen toolbar and navigation only in a browser.
     */
    function DeviceFrame(): (r: Option<Frame>)
      reads this
      ensures r.Some? <==> (selectedFormat == "phone" || selectedFormat == "browser") && previewData.Some?
      ensures r.Some? ==> r.value.variant == selectedFormat && r.value.radius == radius
      ensures r.Some? && r.value.showNotch ==> selectedFormat == "phone"
      ensures r.Some? && selectedFormat == "phone" ==>
        r.value.showNotch == showNotch && r.value.toolbarStyle == LightToolbar && r.value.navigationStyle == TopBar
      ensures r.Some? && selectedFormat == "browser" ==>
        !r.value.showNotch && r.value.toolbarStyle == toolbarStyle && r.value.navigationStyle == navigationStyle
    {
      if (selectedFormat == "phone" || selectedFormat == "browser") && previewData.Some? then
        var phone := selectedFormat == "phone";
        Some(Frame(selectedFormat, radius, if phone then showNotch else false,
                   if selectedFormat == "browser" then toolbarStyle else LightToolbar,
                   if selectedFormat == "browser" then navigationStyle else TopBar,
                   if phone then 390 else 1280, if phone then 844 else 800))
      else None
    }
  }

  /** The swatch columns of the preview: the tertiary column follows the tertiary switch. */
  function SwatchColumns(data: PreviewPalette, seeds: Seeds): (r: seq<string>)
    ensures "tertiary" in r <==> seeds.isTertiaryEnabled && "tertiary" in Keys(data)
  {
    OrderedSwatchKeys(data, seeds.isTertiaryEnabled)
  }

  /**
   * The swatch grid and the device preview agree: a tertiary column is shown exactly when
   * the preview's theme gets a `--tertiary-main` variable.
   */
  lemma SwatchesMatchTheme(data: PreviewPalette, seeds: Seeds, mode: Mode)
    requires WellFormed(data)
    ensures "tertiary" in SwatchColumns(data, seeds) <==> "--tertiary-main" in Keys(CssVarsOf(Some(data), seeds.isTertiaryEnabled, mode))
  {
    CssVarsKeys(data, seeds.isTertiaryEnabled, mode);
  }

  /**
   * Choosing the phone format shows a notch as soon as a preview exists, and switching
   * back to the browser hides it again, whatever the notch switch says.
   */
  method PhoneThenBrowser(p: Preview)
    requires p.previewData.Some?
    modifies p
    ensures p.DeviceFrame().Some? && !p.DeviceFrame().value.showNotch
    ensures p.selectedFormat == "browser" && p.showNotch == false
  {
    p.HandleFormatChange(Some("phone"));
    assert p.DeviceFrame().value.showNotch;
    p.SetShowNotch(true);
    p.HandleFormatChange(Some("browser"));
  }
}
