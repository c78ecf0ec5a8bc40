/**
 * The generator page of frontend/src/components/layout/MainContent.tsx: the three seed
 * colours and whether the tertiary one is in use, what is handed to the pickers and the
 * footer, and the reset the footer triggers after a download.
 */
module MainContent {
  import opened Wrappers
  import opened ColourPicker

  const DefaultPrimary := "#c2c2c2"
  const DefaultSecondary := "#a8a8a8"
  const DefaultTertiary := "#8f8f8f"

  class Generator {
    var primaryColor: string
    var secondaryColor: string
    var tertiaryColor: string
    var isTertiaryEnabled: bool

    /** The initial state: the three default greys, tertiary off. */
    constructor ()
      ensures primaryColor == DefaultPrimary && secondaryColor == DefaultSecondary
      ensures tertiaryColor == DefaultTertiary && !isTertiaryEnabled
    {
      primaryColor := DefaultPrimary;
      secondaryColor := DefaultSecondary;
      tertiaryColor := DefaultTertiary;
      isTertiaryEnabled := false;
    }

    /** `resetGenerator`: back to the initial state. */
    method ResetGenerator()
      modifies this
      ensures primaryColor == DefaultPrimary && secondaryColor == DefaultSecondary
      ensures tertiaryColor == DefaultTertiary && !isTertiaryEnabled
    {
      primaryColor := DefaultPrimary;
      secondaryColor := DefaultSecondary;
      tertiaryColor := DefaultTertiary;
      isTertiaryEnabled := false;
    }

    /** The tertiary picker's `onToggle`: the flag flips, whatever value the picker passes. */
    method ToggleTertiary()
      modifies this
      ensures isTertiaryEnabled == !old(isTertiaryEnabled)
      ensures primaryColor == old(primaryColor) && secondaryColor == old(secondaryColor) && tertiaryColor == old(tertiaryColor)
    {
      isTertiaryEnabled := !isTertiaryEnabled;
    }

    /** `setTertiaryColor`, the tertiary picker's `onColorChange`. */
    method SetTertiaryColor(color: string)
      modifies this
      ensures tertiaryColor == color
      ensures primaryColor == old(primaryColor) && secondaryColor == old(secondaryColor) && isTertiaryEnabled == old(isTertiaryEnabled)
    {
      tertiaryColor := color;
    }

    /** The `disabled` prop of the tertiary picker: set exactly when the tertiary colour is off. */
    function TertiaryPickerDisabled(): (r: bool)
      reads this
      ensures r <==> !isTertiaryEnabled
    {
      !isTertiaryEnabled
    }

    /** The `tertiaryColor` prop of the footer: the colour when it is on, undefined otherwise. */
    function FooterTertiary(): (r: Option<string>)
      reads this
      ensures r.Some? <==> isTertiaryEnabled
      ensures r.Some? ==> r.value == tertiaryColor
    {
      if isTertiaryEnabled then Some(tertiaryColor) else None
    }
  }

  /**
   * A click on the tertiary picker's switch: the picker takes the new checkbox value and
   * calls `onToggle`, the page flips its flag, and the picker's `disabled` effect then runs.
   * Picker and page stay in agreement, and both flip.
   */
  method ClickTertiarySwitch(page: Generator, picker: Picker)
    requires picker.isEnabled == page.isTertiaryEnabled
    modifies page, picker
    ensures page.isTertiaryEnabled == !old(page.isTertiaryEnabled)
    ensures picker.isEnabled == page.isTertiaryEnabled
    ensures picker.toggles == old(picker.toggles) + [page.isTertiaryEnabled]
    ensures page.tertiaryColor == old(page.tertiaryColor) && picker.color == old(picker.color)
  {
    var checked := !picker.isEnabled;
    picker.HandleToggle(checked, true);
    page.ToggleTertiary();
    picker.SyncDisabled(page.TertiaryPickerDisabled());
  }

  /**
   * A colour picked on the tertiary picker while the tertiary colour is on reaches the page;
   * while it is off the page keeps its colour.
   */
  method PickTertiary(page: Generator, picker: Picker, color: string)
    requires picker.isEnabled == page.isTertiaryEnabled
    modifies page, picker
    ensures page.isTertiaryEnabled ==> page.tertiaryColor == color && page.FooterTertiary() == Some(color)
    ensures !page.isTertiaryEnabled ==> page.tertiaryColor == old(page.tertiaryColor) && page.FooterTertiary().None?
    ensures page.isTertiaryEnabled == old(page.isTertiaryEnabled) && picker.isEnabled == page.isTertiaryEnabled
  {
    var before := |picker.changes|;
    picker.HandleColorChange(color);
    if |picker.changes| > before {
      page.SetTertiaryColor(color);
    }
  }
}
