/**
 * The generator footer of frontend/src/components/layout/Footer.tsx: the palette name the
 * user types, the guards and payloads of the Generate/Download button, and the loading,
 * error and success messages. The request itself is a parameter: its outcome is given,
 * and what the footer sends, downloads and schedules is recorded.
 */
module Footer {
  import opened Wrappers
  import opened Text
  import opened Dict

  /** A payload field's value: a string or a flag. */
  datatype Field = Str(s: string) | Flag(b: bool)

  type Payload = seq<(string, Field)>

  /** A request the footer sends. */
  datatype Request = CreatePalette(payload: Payload) | DownloadAnonymous(payload: Payload)

  /** Work the footer schedules for later with `setTimeout`. */
  datatype Deferred = NavigateTo(path: string) | ResetGenerator

  /** How the awaited request ended: success, or an exception with its message if it is an `Error`. */
  datatype Outcome = Succeeded | Failed(message: Option<string>)

  const ColoursRequired := "Primary and secondary colors are required"

  /** The payload an authenticated user's palette is saved with. */
  function CreatePayload(name: string, primary: string, secondary: string, tertiary: Option<string>): (p: Payload)
    ensures |p| == if Truthy(tertiary) then 4 else 3
    ensures p[0] == ("name", Str(Trim(name)))
  {
    [("name", Str(Trim(name))), ("primary", Str(primary)), ("secondary", Str(secondary))]
    + (if tertiary.Some? && tertiary.value != "" then [("tertiary", Str(tertiary.value))] else [])
  }

  /** The payload of an anonymous download: a tertiary colour comes with `include_tertiary`. */
  function DownloadPayload(name: string, primary: string, secondary: string, tertiary: Option<string>): (p: Payload)
    ensures |p| == if Truthy(tertiary) then 5 else 3
    ensures p[0] == ("name", Str(Trim(name)))
  {
    [("name", Str(Trim(name))), ("primary", Str(primary)), ("secondary", Str(secondary))]
    + (if tertiary.Some? && tertiary.value != "" then [("tertiary", Str(tertiary.value)), ("include_tertiary", Flag(true))] else [])
  }

  /** The saved palette has the name and both colours, the tertiary colour only when truthy, and no `include_tertiary`. */
  lemma CreatePayloadKeys(name: string, primary: string, secondary: string, tertiary: Option<string>)
    ensures var p := CreatePayload(name, primary, secondary, tertiary);
      && Keys(p) == ["name", "primary", "secondary"] + (if Truthy(tertiary) then ["tertiary"] else [])
      && "include_tertiary" !in Keys(p)
  {
  }

  /** The saved palette's fields hold the trimmed name and the colours as given. */
  lemma CreatePayloadValues(name: string, primary: string, secondary: string, tertiary: Option<string>)
    ensures var p := CreatePayload(name, primary, secondary, tertiary);
      && Get(p, "name") == Some(Str(Trim(name)))
      && Get(p, "primary") == Some(Str(primary)) && Get(p, "secondary") == Some(Str(secondary))
      && (Truthy(tertiary) ==> Get(p, "tertiary") == Some(Str(tertiary.value)))
  {
    var p := CreatePayload(name, primary, secondary, tertiary);
    Lookups(p);
    assert p[0].0 == "name" && p[1].0 == "primary" && p[2].0 == "secondary";
    assert Truthy(tertiary) ==> p[3].0 == "tertiary";
  }

  /** The anonymous download has `tertiary` and `include_tertiary` together, exactly when the tertiary colour is truthy. */
  lemma DownloadPayloadKeys(name: string, primary: string, secondary: string, tertiary: Option<string>)
    ensures var p := DownloadPayload(name, primary, secondary, tertiary);
      && Keys(p) == ["name", "primary", "secondary"] + (if Truthy(tertiary) then ["tertiary", "include_tertiary"] else [])
      && ("tertiary" in Keys(p) <==> Truthy(tertiary))
      && ("include_tertiary" in Keys(p) <==> Truthy(tertiary))
  {
  }

  /** The anonymous download's fields hold the trimmed name, the colours as given and `include_tertiary: true`. */
  lemma DownloadPayloadValues(name: string, primary: string, secondary: string, tertiary: Option<string>)
    ensures var p := DownloadPayload(name, primary, secondary, tertiary);
      && Get(p, "name") == Some(Str(Trim(name)))
      && Get(p, "primary") == Some(Str(primary)) && Get(p, "secondary") == Some(Str(secondary))
      && (Truthy(tertiary) ==> Get(p, "tertiary") == Some(Str(tertiary.value)) && Get(p, "include_tertiary") == Some(Flag(true)))
  {
    var p := DownloadPayload(name, primary, secondary, tertiary);
    Lookups(p);
    assert p[0].0 == "name" && p[1].0 == "primary" && p[2].0 == "secondary";
    assert Truthy(tertiary) ==> p[3].0 == "tertiary" && p[4].0 == "include_tertiary";
  }

  /** In a payload whose keys are distinct each field is found under its own key. */
  lemma Lookups(p: Payload)
    requires forall i, j :: 0 <= i < j < |p| ==> p[i].0 != p[j].0
    ensures forall i :: 0 <= i < |p| ==> Get(p, p[i].0) == Some(p[i].1)
  {
    forall i | 0 <= i < |p| ensures Get(p, p[i].0) == Some(p[i].1) {
      GetDistinct(p, i);
    }
  }

  /** The file name of an anonymous download. */
  function ZipName(name: string): (r: string)
    ensures StartsWith(r, Trim(name)) && EndsWith(r, "-palette-files.zip")
  {
    var r := Trim(name) + "-palette-files.zip";
    assert r[..|Trim(name)|] == Trim(name);
    assert r[|r| - |"-palette-files.zip"|..] == "-palette-files.zip";
    r
  }

  class FooterState {
    var paletteName: string
    var isLoading: bool
    var error: Option<string>
    var success: Option<string>
    /** The requests sent so far. */
    var sent: seq<Request>
    /** The names of the files handed to the browser for download. */
    var downloads: seq<string>
    /** Work scheduled with `setTimeout`, in order. */
    var scheduled: seq<Deferred>

    constructor ()
      ensures paletteName == "" && !isLoading && error.None? && success.None?
      ensures sent == [] && downloads == [] && scheduled == []
    {
      paletteName := "";
      isLoading := false;
      error := None;
      success := None;
      sent := [];
      downloads := [];
      scheduled := [];
    }

    /** `isButtonDisabled`: no name to use, or a request under way. */
    function ButtonDisabled(): (r: bool)
      reads this
      ensures r <==> Trim(paletteName) == "" || isLoading
    {
      Trim(paletteName) == "" || isLoading
    }

    /**
     * `handlePaletteNameChange`: the name follows the input and a truthy message is cleared;
     * an empty one stays as it was, which shows nothing either way.
     */
    method HandlePaletteNameChange(value: string)
      modifies this
      ensures paletteName == value
      ensures !Truthy(error) && !Truthy(success)
      ensures error == (if Truthy(old(error)) then None else old(error))
      ensures success == (if Truthy(old(success)) then None else old(success))
      ensures isLoading == old(isLoading) && sent == old(sent) && downloads == old(downloads) && scheduled == old(scheduled)
    {
      paletteName := value;
      if error.Some? && error.value != "" {
        error := None;
      }
      if success.Some? && success.value != "" {
        success := None;
      }
    }

    /**
     * `handleGenerateClick`: a blank name does nothing; a missing primary or secondary
     * colour sets an error and sends nothing. Otherwise the palette is saved (signed in)
     * or downloaded (anonymous), and the outcome sets the messages.
     */
    method HandleGenerateClick(isAuthenticated: bool, primary: string, secondary: string,
                               tertiary: Option<string>, hasOnReset: bool, outcome: Outcome)
      modifies this
      ensures Trim(old(paletteName)) == "" ==>
        paletteName == old(paletteName) && isLoading == old(isLoading) && error == old(error)
        && success == old(success) && sent == old(sent) && downloads == old(downloads) && scheduled == old(scheduled)
      ensures Trim(old(paletteName)) != "" && (primary == "" || secondary == "") ==>
        error == Some(ColoursRequired) && success == old(success) && sent == old(sent) && downloads == old(downloads)
        && paletteName == old(paletteName) && isLoading == old(isLoading) && scheduled == old(scheduled)
      ensures Trim(old(paletteName)) != "" && primary != "" && secondary != "" ==>
        && !isLoading
        && sent == old(sent) + [if isAuthenticated then CreatePalette(CreatePayload(old(paletteName), primary, secondary, tertiary))
                                else DownloadAnonymous(DownloadPayload(old(paletteName), primary, secondary, tertiary))]
        && (outcome.Succeeded? ==> error.None? && success.Some? && paletteName == "")
        && (outcome.Succeeded? && isAuthenticated ==>
              success == Some("Palette \"" + old(paletteName) + "\" created successfully!")
              && scheduled == old(scheduled) + [NavigateTo("/my-palettes")] && downloads == old(downloads))
        && (outcome.Succeeded? && !isAuthenticated ==>
              success == Some("Palette \"" + old(paletteName) + "\" downloaded successfully!")
              && downloads == old(downloads) + [ZipName(old(paletteName))]
              && scheduled == old(scheduled) + (if hasOnReset then [ResetGenerator] else []))
        && (outcome.Failed? ==>
              success.None? && paletteName == old(paletteName) && downloads == old(downloads) && scheduled == old(scheduled)
              && error == Some(if outcome.message.Some? then outcome.message.value
                               else "Failed to " + (if isAuthenticated then "generate" else "download") + " palette"))
    {
      if Trim(paletteName) == "" {
        return;
      }
      if primary == "" || secondary == "" {
        error := Some(ColoursRequired);
        return;
      }
      isLoading := true;
      error := None;
      success := None;
      var name := paletteName;
      if isAuthenticated {
        sent := sent + [CreatePalette(CreatePayload(name, primary, secondary, tertiary))];
        if outcome.Succeeded? {
          success := Some("Palette \"" + name + "\" created successfully!");
          paletteName := "";
          scheduled := scheduled + [NavigateTo("/my-palettes")];
        }
      } else {
        sent := sent + [DownloadAnonymous(DownloadPayload(name, primary, secondary, tertiary))];
        if outcome.Succeeded? {
          downloads := downloads + [ZipName(name)];
          success := Some("Palette \"" + name + "\" downloaded successfully!");
          paletteName := "";
          if hasOnReset {
            scheduled := scheduled + [ResetGenerator];
          }
        }
      }
      if outcome.Failed? {
        var action := if isAuthenticated then "generate" else "download";
        error := Some(if outcome.message.Some? then outcome.message.value else "Failed to " + action + " palette");
      }
      isLoading := false;
    }
  }

  /**
   * The anonymous payload is the saved one with `include_tertiary` appended exactly when a
   * tertiary colour is sent.
   */
  lemma PayloadsDiffer(name: string, primary: string, secondary: string, tertiary: Option<string>)
    ensures DownloadPayload(name, primary, secondary, tertiary)
         == CreatePayload(name, primary, secondary, tertiary) + (if Truthy(tertiary) then [("include_tertiary", Flag(true))] else [])
  {
  }
}
