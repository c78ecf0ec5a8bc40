# palgen colour palettes, modelled in Dafny

palgen turns one brand colour (plus an optional secondary and tertiary colour) into a UI
palette. Each seed colour becomes a named colour with nine shades, 100 to 900, where 500
is the seed itself. The palette also gets a neutral grey and four supporting hues: green,
orange, red and blue. The palette is written out as CSS custom properties, a TypeScript
object, a Dart class, an Excel sheet and a PNG swatch image. The Django backend also
returns it as JSON for a live preview.

The model covers these parts of the system.

**Colour arithmetic** (`ColorCodec`) follows the Python helpers:
- hex parsing with Python's `int(x, 16)` and its edge cases (a leading minus, a short final
  pair, a three-digit shorthand);
- hex formatting;
- HSB to RGB and back through `colorsys` functions given as parameters, with the
  `ZeroDivisionError` that `rgb_to_hsv` raises when the largest channel is 0 and another is
  below it;
- the brightness threshold behind the contrast colour;
- Python's `round` on the CMYK conversion.

**Shade ramps** (`ShadeRamp`, `BackendGenerator`, `FlaskGenerator`):
- the nine shades are derived from the seed and kept in ascending key order;
- the Flask variant rounds saturation and brightness first;
- lightness falls and saturation rises across the ramp.

**Palette assembly** (`PaletteAssembly`): the ordered colour names, the seed of each, and
the Python dict built key by key.

**Generated text** (`PaletteText`, `BackendGenerator`, `FlaskGenerator`): the CSS,
TypeScript and Dart files as sequences of lines, with every shade's line located exactly.

**The Django API**:
- the trusted-frontend check (`Security`);
- the request and response serializers (`Serializers`);
- the palette and file records (`Models`);
- the preview, anonymous download, file download and file generation views (`Views`),
  including the error responses for malformed colours.

**The Flask route** (`FlaskRoutes`): sanitising the palette name and reading the form.

**The React front end**:
- the CSS variables the preview theme receives (`PaletteVars`);
- the palette service's response handling and error messages (`PaletteService`);
- the avatar colour (`Avatar`);
- the debounce helper (`Debounce`);
- the auth reducer (`AuthSlice`);
- the colour picker, footer, generator page and layout shell (`ColourPicker`, `Footer`,
  `MainContent`, `MainLayout`);
- the swatch grid, saved-palettes page and live preview (`Swatches`, `MyPalettes`,
  `PreviewSection`).

A Python dict or a JavaScript object is a sequence of key/value pairs in insertion order
(`Dict`). A Python float is an exact real. JavaScript's 32-bit integer operators are
written out (`Numbers.ToInt32`, `ShiftLeft`, `ShiftRight`). Requests, files and timers are
parameters or recorded effects.

The behaviours below follow the code as it is written.
- A three-digit shorthand such as `abc` passes the preview serializer, which adds the `#`.
  The generator then rejects it, because `int('', 16)` raises, so the request gets a 400
  (`Serializers.ShortHexPasses`, `Views.ShorthandPrimaryFails`).
- A primary such as `#-f0000` also passes the serializer and parses to (-15, 0, 0), because
  `int('-f', 16)` is -15. `colorsys.rgb_to_hsv` then divides by the largest channel, 0, and
  raises `ZeroDivisionError: float division by zero`. The preview and the anonymous download
  answer 400 with that error type, the Flask route raises it, and file generation records the
  message (`ColorCodec.NegativeChannelRaises`, `Views.NegativePrimaryFails`,
  `Views.DividingPrimaryDownloadFails`, `FlaskRoutes.GenerateSucceeds`).
- The Flask app names its spreadsheet `-color-pallete.xlsx`.
- The manual preview button sends a request even when a colour is empty.
- The colour picker switches to black text when the weighted brightness exceeds 127500.
  The saved-palettes page uses 128000.

## Model

| member | source | states |
|---|---|---|
| ColorCodec.PySlice | backend/generator/generator.py:50 | Python slicing clamps to the string: length max(0, min(j,len)-i), and an in-range slice is the sub-sequence |
| ColorCodec.ParsePair | backend/generator/generator.py:50 | `int(hex[i:i+2], 16)` either raises or yields a value in -15..255; a pair starting past the end always raises |
| ColorCodec.HexToRgb | backend/generator/generator.py:48-51 | after stripping `#`, four or fewer characters always raise, with a non-empty message; any result has channels in -15..255 |
| ColorCodec.ReadPairs | backend/generator/generator.py:50 | the three-pair read fails on four or fewer digits and bounds every channel |
| ColorCodec.HexToRgbOfDigits | backend/generator/generator.py:48-51 | six hex digits (with or without `#`) parse to exactly their three digit pairs |
| ColorCodec.ReadPairsOfDigits | backend/generator/generator.py:50 | six hex digits read as their three byte values |
| ColorCodec.ReadPairsOfParsed | backend/generator/generator.py:50 | the three pairs parsed at 0, 2 and 4 are the three channels, in order |
| ColorCodec.ParsePairOfDigits | backend/generator/generator.py:50 | two hex digits parse to their byte value |
| ColorCodec.FormatHex | backend/generator/generator.py:45 | `'#%02x%02x%02x'` starts with `#`, and for byte channels is seven characters of lower-case hex |
| ColorCodec.HexRoundTrip | backend/generator/generator.py:44-51 | parsing six hex digits and formatting the result gives back `#` and the lower-cased digits |
| ColorCodec.FormatParseRoundTrip | backend/generator/generator.py:44-51 | formatting byte channels and parsing the text gives back the same channels |
| ColorCodec.FormattedDigits | backend/generator/generator.py:44-51 | a formatted byte colour strips to six hex digits, two per channel |
| ColorCodec.ShortHexRaises | backend/generator/generator.py:48-51 | a three-digit shorthand `#abc` raises `invalid literal for int() with base 16: ''` |
| ColorCodec.ShortReadPairs | backend/generator/generator.py:50 | three digits leave the third pair empty, which raises |
| ColorCodec.OneDigitPair | backend/generator/generator.py:50 | a final single digit parses on its own |
| ColorCodec.EmptyPairFails | backend/generator/generator.py:50 | a pair starting at or past the end raises the empty-literal error |
| ColorCodec.ReadPairsThirdFails | backend/generator/generator.py:50 | when the third pair fails, the read fails with that pair's error |
| ColorCodec.Trunc | backend/generator/generator.py:35 | `int(x)` truncates toward zero, for positive and negative x |
| ColorCodec.HsbToRgb | backend/generator/generator.py:34-36 | when `colorsys` returns fractions in [0,1], the truncated channels are bytes |
| ColorCodec.HsbToHex | backend/generator/generator.py:44-45 | the hex text of an HSB colour starts with `#` |
| ColorCodec.HexToHsb | backend/generator/generator.py:39-58 | succeeds exactly when the hex parses and `rgb_to_hsv` does not divide by zero; a parse failure is a `ValueError` with the parser's message, the other failure a `ZeroDivisionError`; every error has a non-empty message; a result has rounded (integral) h, s and b |
| ColorCodec.SixDigitsConvertible | backend/generator/generator.py:48-58 | six hex digits, with or without `#`, always convert |
| ColorCodec.NegativeChannelRaises | backend/generator/generator.py:39-58 | `#-f0000` parses to (-15, 0, 0) and then raises `ZeroDivisionError` |
| ColorCodec.ContrastColor | backend/generator/generator.py:77-82 | black exactly when the weighted brightness exceeds 128, white otherwise |
| ColorCodec.ContrastMonotone | backend/generator/generator.py:77-82 | lightening every channel never turns black text back to white |
| ColorCodec.ContrastExtremes | backend/generator/generator.py:77-82 | white gets black text; black and pure blue get white text |
| ColorCodec.RgbToCmyk | backend/generator/generator.py:85-96 | pure black is (0,0,0,100) |
| ColorCodec.CmykFormula | backend/generator/generator.py:85-109 | for a non-black colour each ink is the rounded shortfall (m-x)/m·100 and key is round((1-m/255)·100) |
| ColorCodec.InkRange | backend/generator/generator.py:98-109 | each ink is between 0 and 100, and the strongest channel needs none |
| ColorCodec.CmykOfNonBlack | backend/generator/generator.py:85-109 | for byte channels all four components lie in 0..100 and the dominant channel's ink is 0 |
| Numbers.RoundHalfEven | backend/generator/generator.py:57 | Python `round`: within 1/2 of x, a tie going to the even integer |
| Numbers.RoundMonotone | backend/generator/generator.py:57 | rounding never reverses order |
| Numbers.RoundWithin | backend/generator/generator.py:57 | rounding stays inside integer bounds that enclose the value |
| Numbers.Hex02 | backend/generator/generator.py:45 | `%02x` of a byte is its two lower-case hex digits, high then low |
| Numbers.HexDigits | frontend/src/utils/avatarUtils.ts:11 | `toString(16)` gives lower-case digits, without a leading zero, that read back as the number |
| Numbers.PyIntBase16 | backend/generator/generator.py:50 | hex digits parse to their value; up to two characters give -15..255 |
| Numbers.ToInt32 | frontend/src/utils/avatarUtils.ts:5 | a signed 32-bit value congruent to x modulo 2^32, x itself when in range |
| Numbers.ToInt32Congruent | frontend/src/utils/avatarUtils.ts:5 | values congruent modulo 2^32 have the same 32-bit value |
| Numbers.ShiftLeft | frontend/src/utils/avatarUtils.ts:5 | `x << n` is a signed 32-bit value |
| Numbers.ShiftLeftCongruent | frontend/src/utils/avatarUtils.ts:5 | `x << n` agrees with x·2^n modulo 2^32 |
| Numbers.WrappedProduct | frontend/src/utils/avatarUtils.ts:5 | wrapping before and after multiplying agrees with the exact product modulo 2^32 |
| Numbers.ShiftRight | frontend/src/utils/avatarUtils.ts:10 | `x >> n`: the 32-bit value divided by 2^n, rounded down (the bytes it yields are pinned down by `Avatar.HashByteUnsigned`) |
| Numbers.LowByte | frontend/src/utils/avatarUtils.ts:10 | `x & 0xff` is a byte congruent to x modulo 256 |
| Numbers.JsParseHex | frontend/src/components/layout/ColorPickerSection.tsx:69-71 | `parseInt(s, 16)`: the longest hex run after an optional sign and `0x`, or NaN without a digit |
| Numbers.JsParseHexOfDigits | frontend/src/components/layout/ColorPickerSection.tsx:69-71 | a plain run of hex digits parses to its value |
| Numbers.JsParseInt | frontend/src/components/layout/PreviewSection.tsx:351 | `parseInt(s)`: decimal digits, or hex after `0x`, after an optional sign; NaN without a digit |
| Numbers.JsParseIntOfDigits | frontend/src/components/layout/PreviewSection.tsx:351 | a plain run of decimal digits parses to its value |
| ShadeRamp.RampOf | backend/generator/generator.py:61-74 | the ramp lists the nine shade keys in order, each with its derived colour |
| ShadeRamp.InsertedRamp | backend/generator/generator.py:61-72 | the dict as the source fills it, one entry per insertion |
| ShadeRamp.RampIsSortedInsertion | backend/generator/generator.py:61-73 | sorting the inserted dict by key gives the ordered ramp: same entries, ascending distinct keys |
| ShadeRamp.RampSameEntries | backend/generator/generator.py:61-73 | the ordered ramp and the inserted dict hold the same entries |
| ShadeRamp.RampKeysAscending | backend/generator/generator.py:73 | the ramp's keys ascend numerically and are distinct |
| ShadeRamp.RampKeys | backend/generator/generator.py:61-74 | the ramp's keys are exactly 100, 200, ..., 900 |
| ShadeRamp.StepsOrdered | backend/generator/generator.py:65-72 | each shade step is lighter and less saturated than the next |
| ShadeRamp.DeriveOrdered | backend/generator/generator.py:65-72 | for a seed in range, an earlier step is at least as bright and at most as saturated as a later one |
| ShadeRamp.StepsNonNegative | backend/generator/generator.py:65-72 | every step's saturation and brightness offset is non-negative |
| ShadeRamp.DeriveInRange | backend/generator/generator.py:65-72 | clamping keeps derived saturation and brightness within 0..100 |
| ShadeRamp.OnlyMiddleIsBase | backend/generator/generator.py:64 | only shade 500 (the fifth) is the seed itself |
| BackendGenerator.GenerateShades | backend/generator/generator.py:61-74 | nine shades keyed 100..900, all of the seed's hue, with 500 equal to the seed |
| BackendGenerator.ShadesAreSorted | backend/generator/generator.py:73 | the result is the inserted shades sorted by key: same entries, ascending and distinct keys |
| BackendGenerator.ShadesMonotone | backend/generator/generator.py:65-73 | across the ramp brightness never rises and saturation never falls, all within 0..100 |
| BackendGenerator.ShadesInRange | backend/generator/generator.py:65-72 | for a seed in range every shade's saturation and brightness stay in 0..100 |
| BackendGenerator.ShadesAdjacent | backend/generator/generator.py:65-73 | each shade is at least as bright and at most as saturated as the next |
| BackendGenerator.Shade500 | backend/generator/generator.py:64 | looking up "500" gives the seed |
| BackendGenerator.GeneratePalette | backend/generator/generator.py:112-139 | the method builds exactly the palette, or the conversion error (`ValueError` or `ZeroDivisionError`), of the specification function |
| BackendGenerator.PaletteOf | backend/generator/generator.py:112-139 | fails exactly when a given seed cannot be converted; a failing primary gives its own conversion error; every error has a non-empty message |
| BackendGenerator.PaletteKeys | backend/generator/generator.py:112-133 | a generated palette has Primary, Secondary if given, Tertiary if given, Neutral, Green, Orange, Red, Blue, each with shades 100..900 |
| BackendGenerator.GeneratedKeys | backend/generator/generator.py:112-133 | the colour names of the assembled palette follow the seeds present, each ramp keyed 100..900 |
| BackendGenerator.RampSeeds | backend/generator/generator.py:117-132 | Primary ramps the seed, Neutral uses (h,15,70), and the supporting hues 134/23/0/204 use saturation −10 and brightness −2 |
| BackendGenerator.PaletteRamps | backend/generator/generator.py:116-133 | every colour has nine shades including 500 |
| BackendGenerator.OutputPath | backend/generator/generator.py:175-178 | the path ends in `<name>-color-palette.<ext>` and is the directory joined with it |
| BackendGenerator.CssFile | backend/generator/generator.py:318-339 | the usage comment and `:root {` open the file and `}` closes it |
| BackendGenerator.TsFile | backend/generator/generator.py:374-400 | the header opens the file and the `export default` footer closes it |
| BackendGenerator.DartFile | backend/generator/generator.py:341-372 | the Dart class header opens the file and `}` closes it |
| BackendGenerator.WriteCss | backend/generator/generator.py:318-339 | the written lines are the CSS file of the palette |
| BackendGenerator.CssFileShape | backend/generator/generator.py:318-339 | usage comment, `:root {`, one `--name-shade: #hex;` per colour and shade at a computed position, then `}` |
| BackendGenerator.WriteTypeScript | backend/generator/generator.py:374-400 | the written lines are the TypeScript file of the palette |
| BackendGenerator.TsFileShape | backend/generator/generator.py:374-400 | header, then per colour an opening line and one `shade: '#hex',` line per shade at computed positions, then the footer |
| BackendGenerator.TsBodyAt | backend/generator/generator.py:380-397 | the TypeScript body has n+2 lines per colour, with each colour's opening and shade lines located |
| BackendGenerator.TsBlock | backend/generator/generator.py:383-393 | a colour's TypeScript block is its opening line, one line per shade, and a closing line |
| BackendGenerator.TsFileBody | backend/generator/generator.py:374-400 | the file is header, body and footer with the body at offset |header| |
| BackendGenerator.WriteDart | backend/generator/generator.py:341-372 | the written lines are the Dart file of the palette |
| BackendGenerator.WriteSwatches | backend/generator/generator.py:364-370 | the swatch section is the concatenation of the requested colours' swatches |
| BackendGenerator.WriteSwatch | backend/generator/generator.py:366-370 | one colour's swatch lines, empty when the colour is absent |
| BackendGenerator.SwatchesOfThree | backend/generator/generator.py:364-370 | the primary, secondary and tertiary swatches appear in that order |
| BackendGenerator.SwatchesPrefix | backend/generator/generator.py:364-370 | each further colour appends its own swatch |
| BackendGenerator.SwatchesSnoc | backend/generator/generator.py:364-370 | swatches of names + [n] are those of names followed by n's swatch |
| BackendGenerator.GeneratedHas500 | backend/generator/generator.py:368 | every generated ramp has a 500 shade, so the swatch lookup cannot fail |
| BackendGenerator.GeneratedSwatch | backend/generator/generator.py:366-370 | a colour's swatch is built from its seed exactly when the palette has that colour |
| BackendGenerator.GeneratedSwatches | backend/generator/generator.py:364-370 | the Dart swatches are primary, then secondary if present, then tertiary if present, each from its seed |
| BackendGenerator.CapitalizePrimary | backend/generator/generator.py:366 | `'primary'.capitalize()` is the palette's key `Primary` |
| BackendGenerator.CapitalizeSecondary | backend/generator/generator.py:366 | `'secondary'.capitalize()` is `Secondary` |
| BackendGenerator.CapitalizeTertiary | backend/generator/generator.py:366 | `'tertiary'.capitalize()` is `Tertiary` |
| PaletteAssembly.SupportingSeeds | backend/generator/generator.py:124-129 | Green, Orange, Red, Blue in that order, each the primary with its fixed hue, saturation −10, brightness −2 |
| PaletteAssembly.NamedSeedsOrder | backend/generator/generator.py:116-132 | the palette's names in insertion order, with optional Secondary and Tertiary exactly when given |
| PaletteAssembly.SupportingKeys | backend/generator/generator.py:124-129 | the supporting names are Green, Orange, Red, Blue |
| PaletteAssembly.NamedSeedsDistinct | backend/generator/generator.py:116-132 | no colour name occurs twice |
| PaletteAssembly.NamedSeedsInitials | backend/generator/generator.py:116-132 | the names start with distinct initials P, S, T, N, G, O, R, B in order |
| PaletteAssembly.NamedSeedsLookup | backend/generator/generator.py:117-132 | each name maps to its seed: the primary, the optional seeds as given, neutral (h,15,70), the four supporting hues |
| PaletteAssembly.SupportingLookups | backend/generator/generator.py:124-132 | each supporting name maps to its hue with saturation −10 and brightness −2 |
| PaletteAssembly.BrandLookup | backend/generator/generator.py:117-122 | Primary, Secondary, Tertiary and Neutral map to their seeds |
| PaletteAssembly.SecondaryLookup | backend/generator/generator.py:118-119 | Secondary is present exactly when a secondary seed is given |
| PaletteAssembly.TertiaryLookup | backend/generator/generator.py:120-121 | Tertiary is present exactly when a tertiary seed is given |
| PaletteAssembly.SupportingLookup | backend/generator/generator.py:124-132 | the i-th supporting hue's name maps to that hue |
| PaletteAssembly.NamedSeedsPositions | backend/generator/generator.py:116-132 | Primary first, Secondary second if present, Tertiary before Neutral, then the four supporting hues |
| PaletteAssembly.BrandPositions | backend/generator/generator.py:116-122 | the brand block's positions, ending with Neutral |
| PaletteAssembly.AssemblePalette | backend/generator/generator.py:116-132 | the dict filled key by key equals the named seeds each mapped to its ramp |
| PaletteAssembly.PutEach | backend/generator/generator.py:131-132 | putting the remaining distinct names extends the mapped prefix to the whole |
| PaletteAssembly.PutBrandSeeds | backend/generator/generator.py:116-122 | the brand entries come first, mapped to their ramps |
| PaletteAssembly.PutSeed | backend/generator/generator.py:117-132 | putting one new name extends the mapped prefix by one entry |
| PaletteAssembly.SeedsOf | backend/generator/generator.py:113-115 | fails exactly when the primary, or a given non-empty secondary or tertiary, cannot be converted (malformed, or dividing by zero); a failing primary gives its own error; every error has a non-empty message; optional seeds are present exactly when given |
| PaletteAssembly.OptionalSeed | backend/generator/generator.py:114 | an empty or missing colour is skipped; a given one fails exactly when it cannot be converted, with its own conversion error |
| PaletteText.ShadeLines | backend/generator/generator.py:335-338 | one line per shade, in ramp order |
| PaletteText.WritePaletteLines | backend/generator/generator.py:334-339 | the loop writes exactly every colour's block in palette order |
| PaletteText.PaletteLinesAt | backend/generator/generator.py:334-339 | with blocks of m lines, line t of colour c is at position c·m+t |
| PaletteText.ColourBlockParts | backend/generator/generator.py:334-339 | a block is its opening lines, one line per shade, and its closing lines |
| PaletteText.OneLineEnds | backend/generator/generator.py:383-393 | with one-line opening and closing, shade j sits at line 1+j |
| PaletteText.CssVarLinesAt | backend/generator/generator.py:334-339 | the CSS body has one `--name-shade` line per colour and shade, each at its computed position |
| FlaskGenerator.GenerateShades | app/generator.py:45-58 | nine shades keyed 100..900 of the seed's hue, with 500 the seed |
| FlaskGenerator.ShadesAreSorted | app/generator.py:57 | the result is the inserted shades sorted by key |
| FlaskGenerator.ShadesIntegral | app/generator.py:49-56 | every shade but 500 has rounded saturation and brightness; all of them do for an integral seed |
| FlaskGenerator.RoundedShadeIntegral | app/generator.py:49-56 | a derived Flask shade is rounded and keeps the hue |
| FlaskGenerator.RoundedIsRoundSB | app/generator.py:49-56 | for an integral seed the Flask shade is the backend shade rounded |
| FlaskGenerator.ShadesMonotone | app/generator.py:49-56 | brightness never rises and saturation never falls across the ramp, within 0..100 |
| FlaskGenerator.ShadesInRange | app/generator.py:49-56 | every shade stays within 0..100 |
| FlaskGenerator.ShadesAdjacent | app/generator.py:49-56 | each shade is at least as bright and at most as saturated as the next |
| FlaskGenerator.Shade500 | app/generator.py:48 | looking up "500" gives the seed |
| FlaskGenerator.GeneratePalette | app/generator.py:66-88 | the method builds exactly the palette, or the conversion error (`ValueError` or `ZeroDivisionError`), of the specification function |
| FlaskGenerator.PaletteOf | app/generator.py:66-88 | fails exactly when a given seed cannot be converted; a failing primary gives its own conversion error; every error has a non-empty message |
| FlaskGenerator.PaletteKeys | app/generator.py:66-86 | names follow the seeds given, each ramp keyed 100..900 |
| FlaskGenerator.RampSeeds | app/generator.py:71-86 | Primary, Neutral and the four supporting hues are ramped from the same seeds as in the backend |
| FlaskGenerator.WriteCss | app/generator.py:192-201 | the written lines are the Flask CSS file |
| FlaskGenerator.CssFile | app/generator.py:192-201 | `:root {` opens the file and `}` closes it |
| FlaskGenerator.CssFileShape | app/generator.py:192-201 | `:root {`, one variable line per colour and shade at a computed position, then `}` |
| FlaskRoutes.Title | app/routes.py:29 | `str.title()` keeps the length |
| FlaskRoutes.TitlePointwise | app/routes.py:29 | each character is upper-cased after a non-letter and lower-cased after a letter |
| FlaskRoutes.TitleAfterPointwise | app/routes.py:29 | title-casing a suffix depends only on whether the preceding character is a letter |
| FlaskRoutes.Filter | app/routes.py:31 | the kept characters all pass the test and are no more than the input |
| FlaskRoutes.FilterKeepsAll | app/routes.py:31 | every passing character is kept as often as it occurs; no failing character remains |
| FlaskRoutes.SanitiseName | app/routes.py:29-31 | the name is alphanumeric only and no longer than the input |
| FlaskRoutes.SanitiseKeepsWords | app/routes.py:29 | a word's first letter survives, upper-cased |
| FlaskRoutes.SanitiseKeepsAlnum | app/routes.py:29-31 | the name holds exactly the alphanumerics of the title-cased input, with multiplicity |
| FlaskRoutes.OptionalField | app/routes.py:35-43 | an optional colour is present exactly when the form has a non-empty value for it |
| FlaskRoutes.Generate | app/routes.py:25-58 | non-POST redirects home; a missing name or primary raises `AttributeError`; a conversion failure raises its own error type and message; a rendered page has the sanitised name, the optional colours, and the `-color-pallete.xlsx` and `-color-palette.png` file names |
| FlaskRoutes.GenerateSucceeds | app/routes.py:25-55 | a POST renders exactly when name and primary are present and every given seed converts; `#-f0000` raises `ZeroDivisionError` with `float division by zero` |
| Security.Header | backend/core/utils/security.py:7 | a missing header reads as empty; a present one as its value |
| Security.Referer | backend/core/utils/security.py:7 | the Referer header, or Origin when the Referer is empty or missing |
| Security.IsTrusted | backend/core/utils/security.py:4-9 | DEBUG trusts every request; with TRUSTED_REFERER set, a request with neither Referer nor Origin is refused |
| Security.TrustedCases | backend/core/utils/security.py:4-9 | DEBUG or an unset TRUSTED_REFERER trusts everything; a referer shorter than the trusted prefix is refused |
| Security.TrustedByHeader | backend/core/utils/security.py:7-9 | outside DEBUG, trust means the Referer (or the Origin, when the Referer is empty) starts with TRUSTED_REFERER |
| Security.RejectIfUntrusted | backend/core/utils/security.py:11-13 | a 403 "Forbidden" response exactly when the request is not trusted |
| Serializers.ValidateHex | backend/generator/serializers.py:61-66 | accepts exactly 4 or 7 characters with `#`, or 3 or 6 without, adding the `#`; otherwise the format error |
| Serializers.ValidateIdempotent | backend/generator/serializers.py:61-66 | validating an accepted value again returns it unchanged |
| Serializers.ValidateIgnoresCharacters | backend/generator/serializers.py:64-66 | acceptance depends only on the length and the leading `#`, not on whether the characters are hex digits |
| Serializers.ShortHexPasses | backend/generator/serializers.py:61-66 | a three-digit shorthand is accepted as `#abc` and the generator's parser then rejects it |
| Serializers.ValidateOptional | backend/generator/serializers.py:68-84 | an empty optional colour is accepted as is; any other value is validated like the primary |
| Serializers.ValidateField | backend/generator/serializers.py:57-84 | a field not sent stays absent, an empty one is accepted as is, any other is accepted exactly when it passes the hex check, with that check's value or error |
| Serializers.FieldErrors | backend/generator/serializers.py:54-84 | a failing field contributes exactly one error, a passing one none |
| Serializers.ValidateRequest | backend/generator/serializers.py:54-84 | valid exactly when all three fields are; the validated data carries the normalised colours; on failure the primary is listed exactly when it failed |
| Serializers.ValidatedPrimary | backend/generator/serializers.py:61-66 | a validated primary starts with `#` and has 4 or 7 characters |
| Serializers.GetStatus | backend/generator/serializers.py:34-47 | processing if processing, else error when an error message is set, else completed |
| Serializers.LowerKeys | backend/generator/serializers.py:130-134 | each colour name lower-cased, in order |
| Serializers.ToRepresentation | backend/generator/serializers.py:125-136 | the loop builds the dict keyed by lower-cased colour names |
| Serializers.LowerKeyedKeys | backend/generator/serializers.py:130-134 | the lower-cased dict has distinct keys |
| Serializers.LowerKeyedFrom | backend/generator/serializers.py:130-134 | every key is some colour's lower-cased name |
| Serializers.LowerKeyedHas | backend/generator/serializers.py:130-134 | every colour's lower-cased name is a key |
| Serializers.LowerKeyedDistinct | backend/generator/serializers.py:130-134 | when lower-cased names are distinct, entry i is colour i under its lower-cased name |
| Models.Palette.constructor | backend/generator/models.py:9-22 | a new palette holds the given fields, with no error message and no storage path |
| Models.ExtensionText | backend/generator/models.py:39 | the extension, or "None" for a missing one |
| Models.PaletteFileName | backend/generator/models.py:65 | the file name starts with the palette name and ends in `.<extension>` |
| Models.PaletteFile.constructor | backend/generator/models.py:50-57 | a new file record holds the given palette, type, name and path |
| Models.PaletteFile.Save | backend/generator/models.py:61-67 | an empty path becomes the palette's storage path joined with `<name>.<ext>` when the palette has one; a set path is kept |
| Models.PaletteFile.Url | backend/generator/models.py:69-74 | no URL without a path; otherwise MEDIA_URL joined with the path, backslashes made forward slashes |
| Models.PaletteFile.FullPath | backend/generator/models.py:76-81 | no full path without a path; otherwise MEDIA_ROOT joined with it, an absolute path standing alone |
| Views.Clamp | backend/generator/views.py:216-218 | the value clamped into [lo, hi], unchanged when already inside |
| Views.ClampByte | backend/generator/views.py:223 | a channel clamped into 0..255, unchanged when already a byte |
| Views.ClampHsb | backend/generator/views.py:215-218 | hue within 0..360, saturation and brightness within 0..100; an in-range colour is unchanged |
| Views.PreviewRgb | backend/generator/views.py:221-223 | the preview's rounded and clamped channels are bytes |
| Views.PreviewChannelNearFile | backend/generator/views.py:222 | the preview's rounded channel is the file's truncated channel or one more |
| Views.LowerOfLowerHex | backend/generator/views.py:226-234 | lower-casing a formatted hex changes nothing |
| Views.CmykInRange | backend/generator/views.py:229-230 | every CMYK component of a byte colour is within 0..100 |
| Views.ShadeOfMeetsSchema | backend/generator/views.py:214-237 | every built shade satisfies the response serializer's shade schema, with the clamped HSB values |
| Views.ShadeOfHex | backend/generator/views.py:220-237 | a shade's hex is seven lower-case characters that parse back to its RGB, and its CMYK is that RGB's conversion |
| Views.ShadeData | backend/generator/views.py:212-237 | the shade dict is empty exactly when the ramp is |
| Views.ShadeDataOfDistinct | backend/generator/views.py:212-237 | for distinct shade keys the dict is each shade mapped in order |
| Views.BuildShadeData | backend/generator/views.py:212-237 | the loop builds exactly the shade dict |
| Views.WithShades | backend/generator/views.py:239 | colours without shades are dropped; the rest keep their order |
| Views.ColorEntries | backend/generator/views.py:211-243 | one entry per colour with shades, holding its name and shade dict |
| Views.ColorEntriesSnoc | backend/generator/views.py:211-243 | adding a colour appends its entry |
| Views.ColorEntriesStep | backend/generator/views.py:211-243 | each loop step appends the next colour's entry |
| Views.BuildResponseData | backend/generator/views.py:208-243 | the loop builds exactly the response dict |
| Views.ResponseOfFullPalette | backend/generator/views.py:208-243 | with non-empty distinct ramps and case-distinct names, entry c is colour c under its lower-cased name |
| Views.AllWithShades | backend/generator/views.py:239 | nothing is dropped when every colour has shades |
| Views.EmptyColourOmitted | backend/generator/views.py:239-243 | a colour without shades leaves the response unchanged |
| Views.ResponseOfNamed | backend/generator/views.py:208-243 | for ramps with a common key list, entry c is colour c with exactly those shade keys |
| Views.ShadesKeys | backend/generator/views.py:212-237 | shade dicts keep the ramp's keys |
| Views.RampsFull | backend/generator/views.py:212-237 | ramps with a common non-empty distinct key list are non-empty with distinct keys |
| Views.NamesLowerDistinct | backend/generator/views.py:240 | names whose lower-case forms are distinct stay distinct as keys |
| Views.ShadeKeysDistinct | backend/generator/views.py:212-237 | the shade keys 100..900 are distinct |
| Views.PaletteNamesLowerDistinct | backend/generator/views.py:240 | the palette's colour names remain distinct when lower-cased |
| Views.InitialsDistinct | backend/generator/views.py:240 | the colour names' initials are distinct upper-case letters |
| Views.LowerDistinctByInitial | backend/generator/views.py:240 | names with distinct upper-case initials stay distinct when lower-cased |
| Views.TertiaryArgument | backend/generator/views.py:201-202 | the tertiary colour is passed only when `include_tertiary` is set |
| Views.Preview | backend/generator/views.py:189-257 | the preview handler returns exactly the specified response: 400 on invalid input or a generation error, otherwise 200 with the data |
| Views.PreviewOf | backend/generator/views.py:189-257 | invalid input gives the validation 400; otherwise success exactly when the palette can be generated, and a failure carries `Error generating palette: ` with the exception's message and its type (`ValueError` or `ZeroDivisionError`) |
| Views.PreviewSucceeds | backend/generator/views.py:189-248 | a successful preview has one entry per palette colour, under its lower-cased name, each with shades 100..900 |
| Views.ResponseOfPalette | backend/generator/views.py:205-243 | the response of a generated palette lists every colour lower-cased with shades 100..900 |
| Views.PreviewData | backend/generator/views.py:189-248 | a successful preview's data is the response built from the generated palette |
| Views.ShorthandPrimaryFails | backend/generator/views.py:189-257 | a validated four-character primary gives a 400 with a `ValueError` body, and for `abc` the empty-literal message |
| Views.NegativePrimaryFails | backend/generator/views.py:189-257 | `#-f0000` passes validation and gets a 400 `Error generating palette: float division by zero` of type `ZeroDivisionError` |
| Views.DividingPrimaryFails | backend/generator/views.py:189-257 | any seven-character primary whose largest channel is 0 with a negative one gets that 400 |
| Views.DividingPrimaryPalette | backend/generator/generator.py:112-115 | such a primary makes palette generation fail with `ZeroDivisionError`, whatever the other seeds |
| Views.ValidatedSeven | backend/generator/serializers.py:61-66 | a seven-character primary with `#` is validated unchanged |
| Views.PreviewFailure | backend/generator/views.py:250-257 | a generation error gives the 400 body with the prefixed message and the error's type |
| Views.TertiaryOnlyWhenIncluded | backend/generator/views.py:201-202 | without `include_tertiary` a valid tertiary is ignored; an invalid one still fails validation |
| Views.ZipName | backend/generator/views.py:382-383 | the archive name is the slug followed by `-palette-files.zip`, with `palette` for an empty slug |
| Views.AnonymousGuards | backend/generator/views.py:328-349 | a blank name gives the name-required 400 and a missing secondary the colours-required 400, before any generation |
| Views.ValidatedNonEmpty | backend/generator/views.py:345 | a validated colour is never empty |
| Views.DefaultNameAccepted | backend/generator/views.py:332 | without a name the default `palette` is never refused |
| Views.AnonymousSucceeds | backend/generator/views.py:318-394 | the download succeeds exactly when valid, named, with a secondary, every given seed converts and the files are written; the zip is named from the slug |
| Views.AnonymousDownloadOf | backend/generator/views.py:318-394 | invalid input gives the validation 400; a success carries the given name (or `palette`), the zip named from its slug and the validated colours; a generation failure is reported as `ValueError` or `ZeroDivisionError` |
| Views.DividingPrimaryDownloadFails | backend/generator/views.py:318-394 | a named download with a secondary and a dividing primary gets a 400 `Error generating palette files: float division by zero` of type `ZeroDivisionError` |
| Views.ContentType | backend/generator/views.py:293-303 | the content type is chosen by the file's extension, and none for any other |
| Views.ContentTypeOfPaletteFile | backend/generator/views.py:293-303 | a palette file named by its extension gets that extension's content type |
| Views.ContentTypeOfExtension | backend/generator/views.py:293-303 | a path ending in `.ext` gets ext's content type |
| Views.PaletteDir | backend/generator/views.py:107-113 | the storage directory is `palettes/` followed by `<id>-<slug>`, with `palette` for an empty slug |
| Views.GeneratePaletteFiles | backend/generator/views.py:103-148 | processing ends; on success the storage path is set and one file per type is stored; on failure the exception's message is recorded and no files are made |
| Views.WriteFiles | backend/generator/views.py:115-124 | the generation step fails with the directory error, else the palette's conversion message, else the write error |
| Views.GenerationError | backend/generator/views.py:103-148 | the first error in order: directory, palette conversion (its `str(e)`, such as `float division by zero`), file writing |
| Views.CreatePaletteFiles | backend/generator/views.py:126-138 | one fresh file record per file type, in the palette's directory |
| Views.StatusAfterGeneration | backend/generator/views.py:140-148 | without a generation error the status is completed exactly when no earlier message is set; with one, error exactly when its text is non-empty (an empty message reads as completed); an unconvertible seed always ends in error |
| PaletteVars.VarName | frontend/src/components/preview/PaletteVarsProvider.tsx:26 | `--key-shade` is three characters longer than key and shade together |
| PaletteVars.ShadesOf | frontend/src/components/preview/PaletteVarsProvider.tsx:23 | a missing colour has no shades; a present one has its own |
| PaletteVars.HexOf | frontend/src/components/preview/PaletteVarsProvider.tsx:25 | a missing shade reads as empty; a non-empty value is the shade's |
| PaletteVars.PaletteOr | frontend/src/components/preview/PaletteVarsProvider.tsx:31-38 | the palette's hex when present and non-empty, else the fallback |
| PaletteVars.Lookup | frontend/src/components/preview/PaletteVarsProvider.tsx:31-38 | the palette's non-empty hex wins, otherwise an emitted variable or the fallback; never empty unless the fallback is |
| PaletteVars.BrandMains | frontend/src/components/preview/PaletteVarsProvider.tsx:41-46 | primary and secondary mains (tertiary when shown) read 600 in dark mode or 500, then 500, then their fixed colours |
| PaletteVars.Backgrounds | frontend/src/components/preview/PaletteVarsProvider.tsx:48-50 | the two backgrounds read neutral 800/400 and 700/500 with their fixed colours |
| PaletteVars.TextColours | frontend/src/components/preview/PaletteVarsProvider.tsx:52-54 | the two text colours read neutral 300/900 and 400/800 with mode-dependent fallbacks |
| PaletteVars.BrandTexts | frontend/src/components/preview/PaletteVarsProvider.tsx:56-61 | the brand text colours (tertiary when shown) read 300 in dark mode or 700 |
| PaletteVars.FeedbackColours | frontend/src/components/preview/PaletteVarsProvider.tsx:63-67 | red, orange, blue and green 300/700 with one fallback each |
| PaletteVars.Divider | frontend/src/components/preview/PaletteVarsProvider.tsx:69-70 | the divider reads neutral 500/700 |
| PaletteVars.ColourKeys | frontend/src/components/preview/PaletteVarsProvider.tsx:21 | primary, secondary, neutral, and tertiary exactly when it is enabled and present, without repeats |
| PaletteVars.CssVarsOf | frontend/src/components/preview/PaletteVarsProvider.tsx:18-19 | no palette gives no variables |
| PaletteVars.EmitShadeVars | frontend/src/components/preview/PaletteVarsProvider.tsx:20-28 | the loop emits exactly the shade variables of the chosen colours |
| PaletteVars.CssVars | frontend/src/components/preview/PaletteVarsProvider.tsx:18-73 | the method computes exactly the specified variable map |
| PaletteVars.AssignBrandMains | frontend/src/components/preview/PaletteVarsProvider.tsx:41-46 | the brand main colours are assigned in order |
| PaletteVars.AssignBackgrounds | frontend/src/components/preview/PaletteVarsProvider.tsx:48-50 | the two backgrounds are assigned |
| PaletteVars.AssignTextColours | frontend/src/components/preview/PaletteVarsProvider.tsx:52-54 | the two text colours are assigned |
| PaletteVars.AssignBrandTexts | frontend/src/components/preview/PaletteVarsProvider.tsx:56-61 | the brand text colours are assigned in order |
| PaletteVars.AssignFeedbackColours | frontend/src/components/preview/PaletteVarsProvider.tsx:63-67 | the four feedback colours are assigned |
| PaletteVars.AssignDivider | frontend/src/components/preview/PaletteVarsProvider.tsx:69-70 | the divider is assigned |
| PaletteVars.VarNameEndsInDigit | frontend/src/components/preview/PaletteVarsProvider.tsx:26 | a shade variable's name ends in a digit |
| PaletteVars.VarNameInjective | frontend/src/components/preview/PaletteVarsProvider.tsx:26 | distinct colour/shade pairs give distinct variable names |
| PaletteVars.NoLongerColour | frontend/src/components/preview/PaletteVarsProvider.tsx:26 | a variable name fixes the longest colour name that can produce it |
| PaletteVars.ShadesOfWellFormed | frontend/src/components/preview/PaletteVarsProvider.tsx:23 | a well-formed palette's shade dicts are well-formed |
| PaletteVars.EmitShadesGet | frontend/src/components/preview/PaletteVarsProvider.tsx:22-28 | after emitting a colour, its non-empty shades can be read back under their names and nothing else changes |
| PaletteVars.EmitColoursGet | frontend/src/components/preview/PaletteVarsProvider.tsx:20-28 | after emitting several colours, each emitted non-empty shade can be read back |
| PaletteVars.EmitShadesKeys | frontend/src/components/preview/PaletteVarsProvider.tsx:22-28 | emitting shades only adds names ending in a digit |
| PaletteVars.EmitColoursKeys | frontend/src/components/preview/PaletteVarsProvider.tsx:20-28 | all emitted shade variable names end in a digit |
| PaletteVars.ShadeVarsGet | frontend/src/components/preview/PaletteVarsProvider.tsx:20-28 | a shade variable is set exactly for a shown colour's non-empty shade, to that hex |
| PaletteVars.ShadeVarsEmitted | frontend/src/components/preview/PaletteVarsProvider.tsx:20-28 | the emitted shade variables agree with the palette |
| PaletteVars.ShadeLiteralsNumeric | frontend/src/components/preview/PaletteVarsProvider.tsx:40-70 | the shade literals used by the semantic variables are numeric |
| PaletteVars.LookupIsPaletteOr | frontend/src/components/preview/PaletteVarsProvider.tsx:31-38 | reading a shade through the variable map equals reading the palette with the fallback |
| PaletteVars.AssignAllAppend | frontend/src/components/preview/PaletteVarsProvider.tsx:40-70 | assigning two blocks in turn equals assigning their concatenation |
| PaletteVars.SemanticBlocks | frontend/src/components/preview/PaletteVarsProvider.tsx:40-70 | the semantic assignments are the six blocks in source order |
| PaletteVars.Names | frontend/src/components/preview/PaletteVarsProvider.tsx:40-70 | the names assigned, in order |
| PaletteVars.Intended | frontend/src/components/preview/PaletteVarsProvider.tsx:31-38 | a semantic value is the palette shade, else the second shade, else the fallback |
| PaletteVars.Entries | frontend/src/components/preview/PaletteVarsProvider.tsx:40-70 | one entry per assignment with its intended value |
| PaletteVars.EntriesKeys | frontend/src/components/preview/PaletteVarsProvider.tsx:40-70 | the entries' keys are the assigned names |
| PaletteVars.EntriesSnoc | frontend/src/components/preview/PaletteVarsProvider.tsx:40-70 | one more assignment appends one entry |
| PaletteVars.EntriesNamed | frontend/src/components/preview/PaletteVarsProvider.tsx:40-70 | semantic entries never collide with shade variables |
| PaletteVars.EvaluateIsIntended | frontend/src/components/preview/PaletteVarsProvider.tsx:31-38 | each assignment evaluates to its intended value |
| PaletteVars.AssignAllShape | frontend/src/components/preview/PaletteVarsProvider.tsx:40-70 | assigning distinct semantic names appends one intended entry per name after the shade variables |
| PaletteVars.SemanticNamesOf | frontend/src/components/preview/PaletteVarsProvider.tsx:40-70 | the semantic names are the fixed list, with the tertiary names only when tertiary is shown |
| PaletteVars.BlockNames | frontend/src/components/preview/PaletteVarsProvider.tsx:41-70 | each block assigns its listed variable names |
| PaletteVars.SemanticNamesDistinct | frontend/src/components/preview/PaletteVarsProvider.tsx:40-70 | the semantic names are distinct and none ends in a digit |
| PaletteVars.SemanticShadesNumeric | frontend/src/components/preview/PaletteVarsProvider.tsx:40-70 | every shade the semantic assignments read is numeric |
| PaletteVars.BlockShadesNumeric | frontend/src/components/preview/PaletteVarsProvider.tsx:40-70 | every block reads numeric shades |
| PaletteVars.SemanticValid | frontend/src/components/preview/PaletteVarsProvider.tsx:40-70 | the semantic assignments are valid |
| PaletteVars.CssVarsShape | frontend/src/components/preview/PaletteVarsProvider.tsx:18-72 | the variables are the shade variables followed by one intended entry per semantic name |
| PaletteVars.CssVarsKeys | frontend/src/components/preview/PaletteVarsProvider.tsx:18-72 | the keys are the shade names then the semantic names; tertiary variables exist exactly when tertiary is shown |
| PaletteVars.TertiaryNames | frontend/src/components/preview/PaletteVarsProvider.tsx:44-46 | the tertiary semantic names appear exactly when tertiary is shown |
| PaletteVars.SemanticValue | frontend/src/components/preview/PaletteVarsProvider.tsx:40-70 | each semantic variable holds its intended value |
| PaletteVars.EntryValue | frontend/src/components/preview/PaletteVarsProvider.tsx:40-70 | a semantic name reads back its intended value |
| PaletteVars.ShadeVarValue | frontend/src/components/preview/PaletteVarsProvider.tsx:20-38 | a shade variable in the final map is exactly the palette's non-empty shade of a shown colour |
| PaletteVars.PrimaryMainValue | frontend/src/components/preview/PaletteVarsProvider.tsx:42 | `--primary-main` is primary 600 in dark mode or 500 in light, falling back to primary 500 then #4f68c5 |
| PaletteService.ElementStrings | frontend/src/services/palette.ts:165 | one string per array element |
| PaletteService.UserPalettes | frontend/src/services/palette.ts:88-99 | an array is kept, a paginated object gives its results, another object is wrapped, anything else is empty |
| PaletteService.UserPalettesIsList | frontend/src/services/palette.ts:92-99 | the result is a list unless the results field is a non-list truthy value |
| PaletteService.Entries | frontend/src/services/palette.ts:162 | an object's entries are its fields; an array's are its indices as strings with the elements |
| PaletteService.FieldLines | frontend/src/services/palette.ts:162-168 | one `field: messages` line per entry |
| PaletteService.CreateError | frontend/src/services/palette.ts:145-183 | the thrown message for each kind of failure: server string, per-field lines, generic text, no-response text, or the request's own message |
| PaletteService.ObjectErrorLines | frontend/src/services/palette.ts:161-171 | the message after the prefix splits back into exactly the field lines |
| Avatar.HashStep | frontend/src/utils/avatarUtils.ts:5 | one step is `hash * 31 + code` modulo 2^32 |
| Avatar.Hash | frontend/src/utils/avatarUtils.ts:3-6 | the loop's hash is the polynomial hash `s[0]·31^(n-1) + … + s[n-1]` modulo 2^32 |
| Avatar.ColourOf | frontend/src/utils/avatarUtils.ts:2-13 | the colour of the string's hash, which with `Hash` and `SameColour` depends only on the polynomial hash modulo 2^32 |
| Avatar.SameColour | frontend/src/utils/avatarUtils.ts:8-13 | hashes that agree modulo 2^32 give the same colour |
| Avatar.SameBytes | frontend/src/utils/avatarUtils.ts:10 | hashes with the same 32-bit value have the same bytes |
| Avatar.HashByte | frontend/src/utils/avatarUtils.ts:10 | each extracted byte is in 0..255 |
| Avatar.LastTwo | frontend/src/utils/avatarUtils.ts:11 | `slice(-2)` keeps the last two characters |
| Avatar.PairText | frontend/src/utils/avatarUtils.ts:11 | a byte becomes its two lower-case hex digits |
| Avatar.Pairs | frontend/src/utils/avatarUtils.ts:9-12 | n bytes give 2n characters |
| Avatar.StringToColor | frontend/src/utils/avatarUtils.ts:2-14 | the loops compute exactly the colour of the name's hash |
| Avatar.ColourDigits | frontend/src/utils/avatarUtils.ts:8-13 | the colour spells the hash's three low bytes |
| Avatar.SpelledPairs | frontend/src/utils/avatarUtils.ts:11 | `#` and three two-digit pairs spell the colour |
| Avatar.Spelled | frontend/src/utils/avatarUtils.ts:8-13 | a spelled colour is `#` and six lower-case hex digits whose pairs read back as the bytes |
| Avatar.PairValue | frontend/src/utils/avatarUtils.ts:11 | a spelled pair reads back as its byte |
| Avatar.ColourFormat | frontend/src/utils/avatarUtils.ts:2-14 | every avatar colour is `#rrggbb` in lower case whose pairs are the hash's bytes |
| Avatar.EmptyColour | frontend/src/utils/avatarUtils.ts:2-14 | the empty name is black |
| Avatar.HashByteUnsigned | frontend/src/utils/avatarUtils.ts:5-10 | the bytes are those of the hash as an unsigned 32-bit value |
| Avatar.RemoveFirst | frontend/src/utils/avatarUtils.ts:18 | `replace('#', '')` drops a leading `#` and leaves other strings alone |
| Avatar.Substr | frontend/src/utils/avatarUtils.ts:19-21 | an in-range `substr` is the slice |
| Avatar.ContrastOf | frontend/src/utils/avatarUtils.ts:16-24 | black exactly when the weighted bytes reach 128000, white otherwise |
| Avatar.ReadBack | frontend/src/utils/avatarUtils.ts:16-21 | the contrast reader recovers the three bytes of an avatar colour |
| Avatar.Initial | frontend/src/utils/avatarUtils.ts:27 | the first character, or nothing for an empty name |
| Avatar.AvatarLabel | frontend/src/utils/avatarUtils.ts:26-28 | at most two characters: the upper-cased initials of the given names, no lower-case letter |
| Debounce.Without | frontend/src/utils/debounce.ts:28 | clearing a timer removes exactly that timer |
| Debounce.Debounced.constructor | frontend/src/utils/debounce.ts:8-13 | no timer pending, nothing called |
| Debounce.Debounced.Call | frontend/src/utils/debounce.ts:15-36 | the pending timer is replaced by one new timer carrying the latest arguments; an immediate call runs only when nothing was pending |
| Debounce.Debounced.Expire | frontend/src/utils/debounce.ts:18-23 | the timer fires: a trailing call runs with the latest arguments, and nothing is pending |
| Debounce.Debounced.Cancel | frontend/src/utils/debounce.ts:38-43 | a pending timer is dropped without a call |
| Debounce.Burst | frontend/src/utils/debounce.ts:15-36 | a burst of calls followed by the timeout runs the function once, with the last arguments |
| Debounce.ImmediateBurst | frontend/src/utils/debounce.ts:15-36 | in immediate mode a burst runs the function once, with the first arguments |
| AuthSlice.AuthState.constructor | frontend/src/store/authSlice.ts:25-28 | authenticated exactly when an access token is stored, with no user |
| AuthSlice.AuthState.LoginSuccess | frontend/src/store/authSlice.ts:56-59 | authenticated with the payload user |
| AuthSlice.AuthState.Logout | frontend/src/store/authSlice.ts:60-64 | signed out with no user |
| AuthSlice.AuthState.FetchFulfilled | frontend/src/store/authSlice.ts:68-71 | authenticated with the fetched user |
| AuthSlice.AuthState.FetchRejected | frontend/src/store/authSlice.ts:72-77 | a 401 or 403 message signs out; any other failure keeps the state |
| AuthSlice.CodeAnywhereSignsOut | frontend/src/store/authSlice.ts:72-77 | a message containing `401` or `403` anywhere signs out |
| AuthSlice.NoFourKeepsState | frontend/src/store/authSlice.ts:72-77 | a message without the digit 4 never signs out |
| AuthSlice.AuthFailureExamples | frontend/src/store/authSlice.ts:72-77 | examples: axios's 401 message and bare 401 and 403 sign out; a missing message or a network error do not |
| ColourPicker.JsSlice | frontend/src/components/layout/ColorPickerSection.tsx:69-71 | an in-range `slice` is the sub-sequence |
| ColourPicker.ContrastTextColour | frontend/src/components/layout/ColorPickerSection.tsx:65-78 | black exactly when the weighted bytes exceed 127500, white (`#FFFFFF`) otherwise; empty gives black |
| ColourPicker.ParsePairAt | frontend/src/components/layout/ColorPickerSection.tsx:69-71 | two hex digits parse to their byte |
| ColourPicker.ContrastExtremes | frontend/src/components/layout/ColorPickerSection.tsx:65-78 | white in either case gets black text, black gets white |
| ColourPicker.Grey | frontend/src/components/layout/ColorPickerSection.tsx:65-78 | a grey `#dddddd` gets black text exactly when its level times 1000 exceeds 127500 |
| ColourPicker.Picker.constructor | frontend/src/components/layout/ColorPickerSection.tsx:27-28 | starts with the default colour, enabled unless disabled |
| ColourPicker.Picker.HandleColorChange | frontend/src/components/layout/ColorPickerSection.tsx:41-45 | an enabled picker takes and reports the colour; a disabled one ignores it |
| ColourPicker.Picker.HandleToggle | frontend/src/components/layout/ColorPickerSection.tsx:47-53 | the switch sets enabled and reports to `onToggle` when there is one |
| ColourPicker.Picker.SyncColour | frontend/src/components/layout/ColorPickerSection.tsx:32-34 | a new default colour replaces the shown one |
| ColourPicker.Picker.SyncDisabled | frontend/src/components/layout/ColorPickerSection.tsx:36-39 | the disabled prop sets enabled to its negation |
| Footer.CreatePayloadKeys | frontend/src/components/layout/Footer.tsx:51-56 | name, primary, secondary, and tertiary only when set; never `include_tertiary` |
| Footer.CreatePayloadValues | frontend/src/components/layout/Footer.tsx:51-56 | the trimmed name and the colours as given |
| Footer.DownloadPayloadKeys | frontend/src/components/layout/Footer.tsx:70-75 | as for create, plus `include_tertiary` exactly when tertiary is set |
| Footer.DownloadPayloadValues | frontend/src/components/layout/Footer.tsx:70-75 | the trimmed name, the colours, and `include_tertiary: true` with a tertiary |
| Footer.CreatePayload | frontend/src/components/layout/Footer.tsx:51-56 | three fields, four with a truthy tertiary, the trimmed name first |
| Footer.DownloadPayload | frontend/src/components/layout/Footer.tsx:70-75 | three fields, five with a truthy tertiary, the trimmed name first |
| Footer.ZipName | frontend/src/components/layout/Footer.tsx:83 | the trimmed name followed by `-palette-files.zip` |
| Footer.FooterState.constructor | frontend/src/components/layout/Footer.tsx:22-25 | empty name, not loading, no messages, nothing sent |
| Footer.FooterState.ButtonDisabled | frontend/src/components/layout/Footer.tsx:109 | disabled exactly when the trimmed name is empty or a request is running |
| Footer.FooterState.HandlePaletteNameChange | frontend/src/components/layout/Footer.tsx:28-33 | the name follows the input; a non-empty error or success message clears, an empty one is left as it is |
| Footer.FooterState.HandleGenerateClick | frontend/src/components/layout/Footer.tsx:35-107 | blank name does nothing; missing colours set the error and leave the success message; otherwise one create or download request, then success (navigation or download and reset) or the failure message |
| Footer.PayloadsDiffer | frontend/src/components/layout/Footer.tsx:51-75 | the download payload is the create payload plus `include_tertiary` when a tertiary is set |
| MainContent.Generator.constructor | frontend/src/components/layout/MainContent.tsx:17-24 | the three default greys, tertiary off |
| MainContent.Generator.ResetGenerator | frontend/src/components/layout/MainContent.tsx:27-32 | back to the initial colours, tertiary off |
| MainContent.Generator.ToggleTertiary | frontend/src/components/layout/MainContent.tsx:83 | the tertiary flag flips and the colours stay |
| MainContent.Generator.SetTertiaryColor | frontend/src/components/layout/MainContent.tsx:82 | only the tertiary colour changes |
| MainContent.Generator.TertiaryPickerDisabled | frontend/src/components/layout/MainContent.tsx:81 | the tertiary picker is disabled exactly when tertiary is off |
| MainContent.Generator.FooterTertiary | frontend/src/components/layout/MainContent.tsx:103 | the footer gets the tertiary colour exactly when it is on |
| MainContent.ClickTertiarySwitch | frontend/src/components/layout/MainContent.tsx:78-88 | a switch click flips both page and picker, which stay in agreement |
| MainContent.PickTertiary | frontend/src/components/layout/MainContent.tsx:78-88 | a picked colour reaches the page and the footer only while tertiary is on |
| MainLayout.NavItems | frontend/src/components/layout/MainLayout.tsx:119-136 | Generator first, then My Palettes, Change Password and Logout when signed in, or Login and Sign Up |
| MainLayout.ConfirmationFor | frontend/src/components/layout/MainLayout.tsx:175-250 | Logout, Change Password, Login and Sign Up open a dialog with their action; only Logout is coloured error; other items open none |
| MainLayout.Effects | frontend/src/components/layout/MainLayout.tsx:203-250 | a confirmed action ends in a navigation and logs out exactly for Logout |
| MainLayout.Layout.constructor | frontend/src/components/layout/MainLayout.tsx:140-159 | the drawer is open except on mobile; no dialog, no effects |
| MainLayout.Layout.ToggleDrawer | frontend/src/components/layout/MainLayout.tsx:164-166 | the drawer flips |
| MainLayout.Layout.HandleCloseDialog | frontend/src/components/layout/MainLayout.tsx:192-194 | the dialog closes, keeping its contents |
| MainLayout.Layout.HandleConfirm | frontend/src/components/layout/MainLayout.tsx:196-201 | the stored action's effects happen, then the dialog closes |
| MainLayout.Layout.HandleNavItemClick | frontend/src/components/layout/MainLayout.tsx:252-267 | a guarded item opens its dialog only; any other navigates and closes the drawer on mobile |
| MainLayout.NavItemsLead | frontend/src/components/layout/MainLayout.tsx:119-267 | every item leads somewhere: unguarded ones to a real path, guarded ones to their page, only Logout signing out |
| MainLayout.ClickAndConfirm | frontend/src/components/layout/MainLayout.tsx:196-267 | click then confirm performs exactly the dialog's action |
| MainLayout.ClickAndCancel | frontend/src/components/layout/MainLayout.tsx:192-267 | click then cancel changes nothing but the (closed) dialog |
| Swatches.Filter | frontend/src/components/layout/MyPalettesPage.tsx:232-234 | `filter` keeps exactly the elements that pass |
| Swatches.FilterAppend | frontend/src/components/layout/MyPalettesPage.tsx:232-234 | filtering distributes over concatenation, so order is kept |
| Swatches.FilterAll | frontend/src/components/layout/MyPalettesPage.tsx:232-234 | when everything passes, the list is unchanged |
| Swatches.FilterSame | frontend/src/components/layout/MyPalettesPage.tsx:232-234 | tests that agree on the list keep the same elements |
| Swatches.FilterOrder | frontend/src/components/layout/MyPalettesPage.tsx:232-234 | kept elements appear in the original's order |
| Swatches.BaseKeys | frontend/src/components/layout/MyPalettesPage.tsx:229-231 | primary, secondary, tertiary when shown, then neutral |
| Swatches.MiscKeys | frontend/src/components/layout/MyPalettesPage.tsx:232-234 | exactly the palette's other colour keys |
| Swatches.OrderedSwatchKeys | frontend/src/components/layout/MyPalettesPage.tsx:225-236 | the fixed columns first, tertiary exactly when shown, then every other key; no key except tertiary is lost |
| Swatches.MiscKeysInPaletteOrder | frontend/src/components/layout/MyPalettesPage.tsx:232-234 | the other keys keep the palette's order |
| Swatches.ShadeTextColour | frontend/src/components/layout/MyPalettesPage.tsx:415 | dark labels exactly on shades below 500 |
| Swatches.ShadeScaleLabels | frontend/src/components/layout/PreviewSection.tsx:351 | 100–400 get dark labels and 500–900 light ones |
| MyPalettes.Search | frontend/src/components/layout/MyPalettesPage.tsx:129-134 | exactly the palettes whose lower-cased name contains the lower-cased term |
| MyPalettes.SearchEmpty | frontend/src/components/layout/MyPalettesPage.tsx:129-134 | an empty term keeps every palette in order |
| MyPalettes.SearchAppend | frontend/src/components/layout/MyPalettesPage.tsx:129-134 | the search keeps the list's order |
| MyPalettes.SearchIgnoresCase | frontend/src/components/layout/MyPalettesPage.tsx:131 | an upper-cased term finds the same palettes |
| MyPalettes.PreviewPayload | frontend/src/components/layout/MyPalettesPage.tsx:105-112 | a missing secondary becomes #a351a9; the tertiary and `include_tertiary` come only with a tertiary |
| MyPalettes.FileTypeConfig | frontend/src/components/layout/MyPalettesPage.tsx:439-480 | the six known types get their icon, colour and label; any other type a default icon labelled with itself |
| MyPalettes.FileTypeIgnoresCase | frontend/src/components/layout/MyPalettesPage.tsx:440 | a known type is styled the same in any case |
| MyPalettes.SeedLabelColour | frontend/src/components/layout/MyPalettesPage.tsx:670-675 | black exactly when the weighted channels exceed 128000, white for an unparsable value |
| MyPalettes.SeedChannels | frontend/src/components/layout/MyPalettesPage.tsx:670-673 | the shifted and masked channels of `#rrggbb` are its digit pairs |
| MyPalettes.SeedValueOfDigits | frontend/src/components/layout/MyPalettesPage.tsx:670 | `parseInt` of the six digits after `#` is the three digit pairs packed as 0xRRGGBB |
| MyPalettes.ZeroChannels | frontend/src/components/layout/MyPalettesPage.tsx:671-673 | an unparsable seed (value 0) has three zero channels |
| MyPalettes.SeedLabelExtremes | frontend/src/components/layout/MyPalettesPage.tsx:670-675 | black seeds get white labels, white seeds black ones |
| MyPalettes.DownloadOnlyWhenCompleted | frontend/src/components/layout/MyPalettesPage.tsx:1009 | downloads are enabled exactly for a selected completed palette |
| MyPalettes.SwatchColumns | frontend/src/components/layout/MyPalettesPage.tsx:374 | the tertiary column is shown exactly when the selected palette has a tertiary seed and data |
| PreviewSection.PreviewPayload | frontend/src/components/layout/PreviewSection.tsx:65-72 | both colours, plus the tertiary and `include_tertiary` exactly when tertiary is enabled |
| PreviewSection.Preview.constructor | frontend/src/components/layout/PreviewSection.tsx:52-60 | browser format, radius 8, notch on, dark toolbar, top bar, light mode |
| PreviewSection.Preview.HandleFormatChange | frontend/src/components/layout/PreviewSection.tsx:162-177 | deselection changes nothing; phone and browser reset the frame with the notch only on phone; other formats change only the format |
| PreviewSection.Preview.SetShowNotch | frontend/src/components/layout/PreviewSection.tsx:521 | only the notch flag changes |
| PreviewSection.Preview.FetchPreview | frontend/src/components/layout/PreviewSection.tsx:63-81 | the request is recorded, a returned palette replaces the preview, and loading ends |
| PreviewSection.Preview.SeedsChanged | frontend/src/components/layout/PreviewSection.tsx:105-111 | a refresh is requested exactly when both colours are non-empty |
| PreviewSection.Preview.HandlePreview | frontend/src/components/layout/PreviewSection.tsx:130-160 | the manual button always fetches |
| PreviewSection.Preview.DeviceFrame | frontend/src/components/layout/PreviewSection.tsx:682-692 | a frame exists for phone and browser once data exists; notch only on phone, toolbar and navigation only in browser |
| PreviewSection.SwatchColumns | frontend/src/components/layout/PreviewSection.tsx:311 | the tertiary column appears exactly when enabled and present |
| PreviewSection.SwatchesMatchTheme | frontend/src/components/layout/PreviewSection.tsx:311 | the tertiary swatch column appears exactly when the theme gets `--tertiary-main` |
| PreviewSection.PhoneThenBrowser | frontend/src/components/layout/PreviewSection.tsx:162-177 | after phone then browser the frame shows no notch, whatever the switch said |

## Left out

- The PNG and Excel renderings (`generate_png_image`, `generate_excel_file` in both generators) are not modelled. The same goes for writing files, making directories, zip building and temporary directories. Writing's outcome enters `Views.GeneratePaletteFiles` and the anonymous download as an error parameter.
- `PaletteViewSet.download` (backend/generator/views.py:151-177) builds a zip archive on disk and is not modelled.
- `PaletteViewSet.create`, `destroy`, `get_queryset` and `perform_create` are ORM and permission plumbing and are not modelled. Deleting files is I/O.
- `get_all_palettes`, the PaletteGenerator constructor's `user_data` and `get_generated_files` list the file system and are not modelled. `OutputPath` covers the file names they use.
- `PaletteFileSerializer.get_download_url` is Django URL reversing and is not modelled.
- `colorsys.hsv_to_rgb` and `colorsys.rgb_to_hsv` are function parameters (`Colorsys`). Only their declared ranges are assumed where a contract needs them. The one exception `rgb_to_hsv` can raise, its `ZeroDivisionError`, is modelled (`ColorCodec.HexToHsb`).
- Python floats are exact reals, so no rounding error of binary floating point is modelled.
- `slugify` is a function parameter.
- Case mapping, title-casing, `isalnum` and whitespace cover ASCII only. JavaScript strings are modelled as characters, not UTF-16 code units.
- JavaScript objects keep insertion order in the model. The engine's rule that puts integer-like keys first is not modelled.
- `parseInt` is exact on any length. Loss of precision beyond 2^53 is not modelled.
- The network, timers and `localStorage` are not modelled. A request's outcome is a parameter, and a timer is an event (`Debounce.Debounced.Expire`).
- Presentational components and themes are not modelled: the dialogs, help modal, theme toggle, device-frame artwork, dashboard and landing layouts. The same goes for the sign-in, sign-up and password pages, the auth service and `scripts.js`.
- In the preview, the radius slider, the toolbar, navigation, layout and colour-mode setters, the minimum loading delay and the scale computation of the device frame are not modelled.
- PreviewSection.Preview.SeedsChanged: the 300 ms debounce in front of `fetchPreview` is collapsed into one call. `Debounce` models the delay separately.
- Serializers.ValidateHex: the value is taken after DRF's `CharField` trimming. The blank and too-long errors of the field itself are reported as the same format error.
- Security.Header: header names are matched exactly, as Django's canonical `HTTP_` keys. The case-insensitive lookup is not modelled.
- Security.TrustedCases: a `TRUSTED_REFERER` set to `None` is treated like a missing one. The source would raise on `startswith(None)`.
- The Flask routes `home`, `clear`, `download_file`, `display_image` and `manage` serve or delete files and are not modelled. So is the Flask `create_directories`.
- `edits.py`, the signals that delete files, the admin, the authentication backend and the user views are not modelled.
- The icons of navigation items are not modelled. File-type icons are kept as icon-name strings.
