# Plant-disease upload and results pages: a Dafny model

The application is a browser front end for a plant-disease detection product.
Two of its screens hold logic with statable behaviour, and this project models
that logic and proves what it promises.

- **The upload page** (`src/components/ImageUpload.tsx`).
  - `validateFile` accepts only the MIME types `image/png`, `image/jpeg` and `image/jpg`, and only files of at most 5 MiB.
  - It returns a validation record `{isValid, error?, size?, resolution?}`.
  - The page keeps that record together with the selected file, an upload-progress percentage and an "is processing" flag.
  - Its handlers are: choosing a file (by drop or by the file picker), the decoded image reporting its size, processing, and reset.
- **The results page** (`src/components/ResultsPage.tsx`).
  - A confidence score is coloured by two thresholds.
  - A severity word is coloured by a case-insensitive lookup.
  - The image view has a zoom level, clamped to 50–200 % in steps of 25, and an overlay flag.

Files:

- `wrappers.dfy`: `Option`, which stands for the object fields JavaScript leaves undefined.
- `decimal.dfy`: decimal numerals of non-negative integers, the two-decimal rendering `toFixed(2)` produces for a whole number of hundredths, and parsers that read both back.
- `file_validation.dfy`: the validator, its record and its size and resolution labels.
- `image_upload.dfy`: the class `UploadPage`, with one method per event handler.
- `results_page.dfy`: the two classifiers, the zoom functions, and the class `ResultsView`.

The size label is modelled exactly with integers.

- `size / (1024 * 1024)` is exact in a double because the divisor is a power of two.
- `toFixed(2)` (section 21.1.3.3 of ECMA-262) picks the integer n nearest to 100·x, and the larger one on a tie.
- So the label shows n = ⌊(100·size + 2^19) / 2^20⌋ hundredths.
- `Hundredths` and `HundredthsNearest` prove this rounding rule.
- `Fixed2` follows the standard's rendering step: left-pad the numeral of n with zeros to three digits, then put a point before the last two.
- `SizeLabelRoundTrip` proves that reading the label back gives n.

The confidence thresholds are written `0.9` and `0.7` in the source. They are modelled as the doubles those literals denote: 8106479329266893 / 2^53 and 6305039478318694 / 2^53. `ThresholdsNearDecimals` bounds their distance from the decimals.

The progress loop of `handleProcessImage` writes 0 to the progress bar once before the loop and then 0, 10, …, 100. `ProcessImage` returns every value written, in order, including the first.

## Model

| member | source | states |
|---|---|---|
| `FileValidation.ValidateFile` | src/components/ImageUpload.tsx:25-50 | The record is valid exactly when the type is one of the three allowed strings and the size is at most 5242880 bytes. It carries an error exactly when it is not valid, so a valid record never carries an error. |
| `FileValidation.UnsupportedTypeRejected` | src/components/ImageUpload.tsx:27-33 | Any type other than exactly `image/png`, `image/jpeg` or `image/jpg` gives `{isValid: false, error: "Only PNG and JPG files are supported"}`, whatever the size. |
| `FileValidation.OversizedRejected` | src/components/ImageUpload.tsx:35-42 | An allowed type with size above 5242880 gives `{isValid: false, error: "File size must be less than 5MB"}`. |
| `FileValidation.SizeLimitBoundary` | src/components/ImageUpload.tsx:36-37 | The limit is inclusive: exactly 5242880 bytes is accepted, and 5242881 bytes is rejected with the size message. |
| `FileValidation.AcceptedRecord` | src/components/ImageUpload.tsx:44-49 | An accepted file gets isValid true, no error, resolution "Analyzing...", and a size label that reads back as the size in MiB rounded to hundredths. |
| `FileValidation.Hundredths` | src/components/ImageUpload.tsx:47 | The hundredths count shown lies within half a hundredth of size / 2^20: −2^19 ≤ 100·size − n·2^20 < 2^19. |
| `FileValidation.HundredthsNearest` | src/components/ImageUpload.tsx:47 | No other count of hundredths is nearer to size / 2^20, and on a tie the larger count is chosen, as toFixed requires. |
| `FileValidation.SizeLabelRoundTrip` | src/components/ImageUpload.tsx:47 | The label ends in " MB", and its two-decimal number reads back as exactly the rounded hundredths count. |
| `FileValidation.AcceptedSizeAtMostFive` | src/components/ImageUpload.tsx:36-47 | An accepted file never shows more than 5.00 MB. |
| `FileValidation.MaxSizeLabel` | src/components/ImageUpload.tsx:36-47 | The largest accepted file is labelled exactly "5.00 MB". |
| `FileValidation.SizeLabel` | src/components/ImageUpload.tsx:47 | The label is "⟨digits⟩.⟨two digits⟩ MB" and its integer part has no leading zero. What its number means is stated by `SizeLabelRoundTrip` and `MaxSizeLabel`. |
| `Decimal.Fixed2` | src/components/ImageUpload.tsx:47 | toFixed(2) on a whole number of hundredths gives digits, a point, and exactly two digits. The integer part has no leading zero unless it is the single digit 0. |
| `Decimal.Fixed2RoundTrip` | src/components/ImageUpload.tsx:47 | The two-decimal rendering of n hundredths reads back as n, including the zero-padded cases below 1.00. |
| `Decimal.NatToDecimal` | src/components/ImageUpload.tsx:71 | The numeral of a width or height is non-empty, all digits, has no leading zero, and has enough digits for its value. |
| `Decimal.ParseNatToDecimal` | src/components/ImageUpload.tsx:71 | Reading the numeral of n gives back n. |
| `Decimal.NatToDecimalInjective` | src/components/ImageUpload.tsx:71 | Different dimensions get different numerals in the resolution label. |
| `FileValidation.ResolutionLabel` | src/components/ImageUpload.tsx:71 | The label starts with the width's numeral followed by " × ", and ends with " px". |
| `FileValidation.ResolutionLabelInjective` | src/components/ImageUpload.tsx:71 | Two resolution labels are equal only when both the widths and the heights are equal. |
| `ImageUpload.ProgressStepsShape` | src/components/ImageUpload.tsx:145-146 | The loop writes eleven values, starting at 0 and ending at 100, never decreasing and all within 0–100. |
| `ImageUpload.UploadPage.constructor` | src/components/ImageUpload.tsx:17-21 | The page starts with no file, the record `{isValid: false}`, progress 0 and processing off. |
| `ImageUpload.UploadPage.ProcessEnabled` | src/components/ImageUpload.tsx:324 | The Process button is enabled only if a file is selected, it passes validation, the record carries no error, and processing is off. |
| `ImageUpload.UploadPage.ChooseFile` | src/components/ImageUpload.tsx:52-89 | This is handleDrop; handleFileSelect at lines 103-136 is identical. With no file, nothing changes. An accepted file replaces both the selection and the record. A rejected file replaces only the record, keeps the earlier selection, and leaves the Process button disabled. The invariant is kept. |
| `ImageUpload.UploadPage.ResolutionLoaded` | src/components/ImageUpload.tsx:68-73 | The image's onload sets only `resolution` to "⟨w⟩ × ⟨h⟩ px". It keeps isValid, error, size and all other state, and keeps the invariant. |
| `ImageUpload.UploadPage.ProcessImage` | src/components/ImageUpload.tsx:138-160 | Without a selected, valid file nothing changes. Otherwise the values written to the progress bar are 0 and then 0, 10, …, 100. The method ends with progress 100 and processing off, and leaves the file and its record unchanged. |
| `ImageUpload.UploadPage.Reset` | src/components/ImageUpload.tsx:162-166 | From any state, reset gives the initial state. That state is fixed, so a second reset changes nothing. |
| `ResultsPage.ConfidenceColor` | src/components/ResultsPage.tsx:52-56 | The result is success exactly when confidence ≥ 0.9, warning exactly when 0.7 ≤ confidence < 0.9, and destructive exactly when confidence < 0.7. |
| `ResultsPage.ThresholdsNearDecimals` | src/components/ResultsPage.tsx:53-54 | The threshold doubles lie within 2^-53 of 0.9 and 0.7. The first is slightly above 0.9 and the second slightly below 0.7. |
| `ResultsPage.ConfidenceColorMonotone` | src/components/ResultsPage.tsx:52-56 | A higher confidence never gets a worse colour. |
| `ResultsPage.ConfidenceClass` | src/components/ResultsPage.tsx:53-55 | Each tone gets a `text-` colour class. The muted case never arises from `ConfidenceColor`. |
| `ResultsPage.ToLower` | src/components/ResultsPage.tsx:59 | Lower-casing keeps the length and maps each character on its own. |
| `ResultsPage.ToLowerMatches` | src/components/ResultsPage.tsx:59 | For the A–Z lowering modelled here: for a lower-case word w, a string lower-cases to w exactly when it is w with some of its letters in upper case. |
| `ResultsPage.SeverityColorCaseInsensitive` | src/components/ResultsPage.tsx:58-64 | Any casing of "low", "moderate" or "high" maps to success, warning or destructive respectively, and only those casings do. Every other string maps to the muted default. |
| `ResultsPage.SeverityColor` | src/components/ResultsPage.tsx:58-64 | A success, warning or destructive result implies the input is a casing of "low", "moderate" or "high" respectively. `SeverityColorCaseInsensitive` proves the converse and the muted default. |
| `ResultsPage.SeverityClass` | src/components/ResultsPage.tsx:60-63 | Each tone gets a `bg-` badge class. |
| `ResultsPage.ClassesDistinct` | src/components/ResultsPage.tsx:52-64 | Different tones get different class strings, in both the confidence and the severity classifier. |
| `ResultsPage.ZoomedIn` | src/components/ResultsPage.tsx:67-69 | Zoom in gives z + 25 or 200, whichever is smaller. |
| `ResultsPage.ZoomedOut` | src/components/ResultsPage.tsx:71-73 | Zoom out gives z − 25 or 50, whichever is larger. |
| `ResultsPage.ZoomLimitsAreFixed` | src/components/ResultsPage.tsx:67-73 | Zoom in at 200 and zoom out at 50 change nothing. |
| `ResultsPage.ZoomUndo` | src/components/ResultsPage.tsx:67-73 | Zoom out after zoom in restores z when 50 ≤ z ≤ 175. Zoom in after zoom out restores z when 75 ≤ z ≤ 200. |
| `ResultsPage.ZoomStaysReachable` | src/components/ResultsPage.tsx:67-73 | Any sequence of clicks keeps the zoom level in 50–200 and a multiple of 25. |
| `ResultsPage.ReachableFromInitial` | src/components/ResultsPage.tsx:49 | Starting at 100, the levels that some sequence of clicks reaches are exactly 50, 75, …, 200. |
| `ResultsPage.ResultsView.constructor` | src/components/ResultsPage.tsx:49-50 | The view starts at zoom 100 with the overlay shown. |
| `ResultsPage.ResultsView.ZoomIn` | src/components/ResultsPage.tsx:67-69 | handleZoomIn sets the level to ZoomedIn of the old level. It leaves the overlay alone and keeps the level reachable. |
| `ResultsPage.ResultsView.ZoomOut` | src/components/ResultsPage.tsx:71-73 | handleZoomOut sets the level to ZoomedOut of the old level. It leaves the overlay alone and keeps the level reachable. |
| `ResultsPage.ResultsView.ToggleOverlay` | src/components/ResultsPage.tsx:133 | The Overlay button negates the flag, so two clicks restore it. The zoom level is unchanged. |

## Left out

- `src/components/LandingPage.tsx` is static marketing content with no logic.
- All JSX rendering, `Link` routing, the `dragActive` highlight flag and the drag-over/drag-leave handlers are left out. They are presentational.
- The CSS class strings appear only as `ConfidenceClass` and `SeverityClass`, keyed by the chosen `Tone`. Only their prefixes and their distinctness are proved.
- Toast notifications are left out. They are side effects with no state the page reads back.
- `URL.createObjectURL` is left out, and so is clearing the file input on reset. These are browser effects.
- Browser image decoding is left out. The decoded width and height are the inputs of `ResolutionLoaded`.
- ImageUpload.UploadPage.ResolutionLoaded: the model takes `onload` as an event that may arrive at any time. It does not track which chosen file an `onload` belongs to. In the source, a late `onload` from an earlier file, or one that arrives after reset, writes its dimensions into whatever record is current. The model allows exactly that, and the invariant still holds.
- ImageUpload.UploadPage.ProcessImage: the `setTimeout` delays and the `await` points are left out, and the handler runs as one atomic step. The model does not capture another handler, such as reset, running between two progress updates. It also does not capture the intermediate states in which `isProcessing` is true; they show only as the returned sequence of progress values.
- React state batching and `useCallback` memoisation are left out. Each handler is one atomic state change.
- ResultsPage.ToLower: `String.prototype.toLowerCase` maps all of Unicode; the model lowers only A–Z.
  - Only A–Z lower-case to one of the letters of "low", "moderate" or "high". The Kelvin sign, for instance, lowers to "k", and U+0130 lowers to two code units.
  - So the three matches are the same as in the source. Only the lowered string of other input differs, and it always reaches the default branch.
- ResultsPage.ConfidenceColor: confidence is any real number, so NaN and ±Infinity are not modelled. In the source, NaN fails both comparisons and gets the destructive colour. Infinity gets the success colour, and -Infinity gets the destructive colour.
- The floating-point display of the mock diagnosis is left out: the `(x * 100).toFixed(1)` percentages, the `scale(zoom / 100)` styles and `toLocaleDateString`. So is the `diagnosisData` constant.
- File sizes are unbounded natural numbers. The rounding argument relies on the size being exact in a double, which holds for sizes below 2^53 bytes.
