# MergeWorks2 layout and naming, in Dafny

MergeWorks2 is a browser page that takes two images and stacks them on
one A3 portrait canvas (3508 x 4961 pixels). The top image goes in the
upper half and the bottom image in the lower half. The page then saves
the canvas as a JPEG. This project models the pure logic of that page,
all of it in `main.js`:

- **Fit calculator** (`Fit`, fit.dfy). `calcFit` scales a source size by
  `min(maxW / origW, maxH / origH)`. The result is the largest
  aspect-preserving size that fits the box. Nothing clamps the factor at 1,
  so small images are scaled up. The model proves that the result fits the
  box, keeps the aspect ratio exactly and touches the box on one side. It
  also proves that these three properties pin the result down, and that no
  aspect-preserving size in the box is larger.
- **Vertical split placement** (`Layout`, layout.dfy). This is the
  arithmetic of `drawTopBottom`. Each image is fitted into
  (canvas width, half height) and centred horizontally. The top image rests
  on the midline and the bottom image hangs from it. The result is the pair
  of rectangles passed to `drawImage`. The model proves midline anchoring,
  centring (equal side margins), containment in the canvas and no overlap.
  It also proves that these properties determine the placement, and that a
  gap opens at a canvas edge exactly when an image is shorter than its half.
- **Download file name** (`FileName`, filename.dfy). `downloadBlob` names
  the file `POP_A3縦_YYYYMMDD_HHMMSS.jpg`. Each field except the year goes
  through `String(..).padStart(2, "0")`. The clock is a parameter (`Clock`
  holds what the `Date` getters return). The model keeps the source's minute
  field, `getMinutes() + 1`: minute 59 is written "60" and minute 0 is
  written "01" (`MinuteFieldShifted`). For in-range clocks with four-digit
  years the name is 27 characters, and every field can be read back from a
  fixed offset. So the name never maps two clocks to the same string.
- **Selection rules** (`Selection`, selection.dfy). The merge button is
  disabled unless both slots hold a file. The rule is modelled the way
  JavaScript evaluates `!(topFile && bottomFile)`: `files[0]` is `undefined`
  or a `File`, and `&&` returns one of its operands. A file is accepted for preview
  only if its declared MIME type starts with `image/` (case-sensitive). The
  enable rule checks only that a file is present. Two chosen files therefore
  enable the merge even when one of them failed the image check.

Layout arithmetic uses exact rationals (`real`). The invariants hold with
equality there: `A3_HEIGHT / 2` is exactly 2480.5. A square 1000 x 1000
image is fitted to 2480.5 x 2480.5. That fills its half exactly, so no gap
opens (`SquareImage`).

## Model

| member | source | states |
|---|---|---|
| `Fit.Min` | main.js:146 | `Math.min`: the result is no larger than either argument and equals one of them |
| `Fit.FitScale` | main.js:146 | the scale factor is positive; applied to the source it stays inside the box in both dimensions and reaches the box in at least one |
| `Fit.CalcFit` | main.js:145-151 | for positive inputs the fit is positive and no larger than the box, has the source's aspect ratio exactly (`w * origH == h * origW`), and touches the box in width or height |
| `Fit.CalcFitIsLargest` | main.js:146-150 | every size with the source's aspect ratio that fits in the box is no wider and no taller than the fit |
| `Fit.CalcFitIsUnique` | main.js:145-151 | a size that keeps the aspect ratio, fits in the box and touches it equals the fit, so the three properties characterise `calcFit` |
| `Fit.CalcFitUpscales` | main.js:146 | a source that already fits is never shrunk, and one strictly inside the box is enlarged (the scale may exceed 1) |
| `Fit.CalcFitScaleInvariant` | main.js:146-150 | scaling the source by any positive factor leaves the fit unchanged, so only the aspect ratio matters |
| `Layout.DrawTopBottom` | main.js:120-138 | the top rectangle's bottom edge and the bottom rectangle's top edge lie on the midline `A3_HEIGHT / 2`; both have equal left and right margins; both lie inside the 3508 x 4961 canvas; they do not overlap; each keeps its source's aspect ratio, fills its half in width or height, and is `calcFit` of its source into (A3_WIDTH, A3_HEIGHT / 2) |
| `Layout.DrawTopBottomIsUnique` | main.js:120-138 | two rectangles that keep the aspect ratios, fit and touch the half box, are centred and are anchored to the midline are exactly the placement `drawTopBottom` computes |
| `Layout.GapsAtCanvasEdges` | main.js:132-138 | a gap opens above the top image exactly when its fitted height is less than half the canvas, and below the bottom image under the same condition for it |
| `Layout.WidthOrHeightBound` | main.js:121-130 | a source at least as wide (relative to its height) as the half box fills the canvas width; one at most as wide fills the half height |
| `Layout.LandscapeOverPortrait` | main.js:120-138 | 800 x 600 on top and 600 x 800 below are placed at (301/3, 0, 9922/3, 2480.5) and (823.8125, 2480.5, 1860.375, 2480.5): both height-bound, both centred |
| `Layout.SquareImage` | main.js:120-138 | a 1000 x 1000 image is fitted to 2480.5 x 2480.5 at x = 513.75 and fills its half, leaving no gap |
| `FileName.DecimalString` | main.js:158-162 | `String(n)` of a non-negative integer has at least one character, and exactly one when `n < 10` |
| `FileName.DecimalStringDigits` | main.js:158-162 | `String(n)` is all digits, starts with '0' only for 0, and reads back as `n` |
| `FileName.IntString` | main.js:165 | the year's `String` form is never empty |
| `FileName.IntStringDigits` | main.js:165 | the year's `String` form starts with '-' exactly for a negative year, and its digits read back as the year's magnitude |
| `FileName.PadStart` | main.js:158-162 | `padStart(target, pad)` has length `max(|s|, target)`; it never truncates |
| `FileName.Pad2` | main.js:158-162 | `String(n).padStart(2, "0")` is at least two characters, and exactly two for `n <= 99` |
| `FileName.PadStartShape` | main.js:158-162 | `padStart` keeps `s` as the suffix and puts only copies of the pad character in front of it |
| `FileName.Pad2Value` | main.js:158-162 | the padded field is all digits and reads back as `n`; it has exactly 2 characters for `n <= 99`; from 10 on it is `String(n)` unchanged |
| `FileName.Pad2Digits` | main.js:158-162 | for `n <= 99` the padded field is the tens digit followed by the units digit |
| `FileName.FourDigitYear` | main.js:157 | a year from 1000 to 9999 is written as its four digits, unpadded |
| `FileName.Template` | main.js:165 | the template literal's length is the sum of its fields' lengths plus the fixed parts; it starts with `POP_A3縦_` and ends with `.jpg` |
| `FileName.NameLayout` | main.js:165 | with a 4-character year and 2-character fields, the template gives 27 characters: the prefix at 0-7, the year at 8-11, month, day, '_' at 16, hour, minute, second, and `.jpg` at 23-26 |
| `FileName.FieldWidths` | main.js:157-162 | for an in-range clock with a four-digit year, every field is all digits, the year 4 characters and each other field 2 |
| `FileName.DownloadName` | main.js:156-165 | for every clock, the file name is at least 24 characters, starts with `POP_A3縦_` and ends with `.jpg` |
| `FileName.DownloadNameSplit` | main.js:156-165 | for an in-range clock with a four-digit year, the name is 27 characters and each field's string sits at its fixed offset |
| `FileName.DownloadNameFields` | main.js:156-165 | reading the name back: the digits at each offset denote the year, `getMonth() + 1`, the day, the hour, `getMinutes() + 1` and the second |
| `FileName.DownloadNameInjective` | main.js:156-165 | two in-range clocks with four-digit years that give the same file name are equal |
| `FileName.MinuteFieldShifted` | main.js:161 | the minute field reads `minutes + 1`, from 1 to 60; it is never "00"; minute 0 is written "01" and minute 59 is written "60" |
| `FileName.ExampleName` | main.js:156-165 | 2024-01-05 09:59:07 gives `POP_A3縦_20240105_096007.jpg` |
| `Selection.IsImageType` | main.js:41 | a type passes exactly when it is `image/` followed by anything |
| `Selection.ImageTypeExamples` | main.js:41 | `image/png`, `image/jpeg` and `image/` pass; `IMAGE/PNG`, `image`, the empty type, `application/pdf` and `text/image/png` do not |
| `Selection.JsAnd` | main.js:30 | JavaScript's `&&` returns one of its operands, and the result is truthy exactly when both operands are |
| `Selection.MergeDisabled` | main.js:30 | `!(topFile && bottomFile)`, evaluated on JavaScript values: the button is enabled exactly when both slots hold a file; the same rule is applied again after a merge (main.js:105) |
| `Selection.MergeIgnoresType` | main.js:24-30 | two chosen files enable the merge whatever their declared types |

## Left out

- DOM access, event listeners and preview rendering in `handleFileChange` and `updatePreview` (main.js:5-56). Only the enable rule at line 30 and the type test at line 41 are modelled.
- `FileReader`, `Image` decoding, `loadImage` and the `Promise.all` join in `handleMerge` (main.js:59-117). This is asynchronous I/O. The guard on the stored data URLs (main.js:60) depends on that state and is not modelled.
- The handler's own state changes: `mergeBtn.disabled = true` during a merge, the status messages, and the try/catch/finally flow (main.js:62-106).
- Canvas painting: sizing the canvas, the white `fillRect`, and the two `drawImage` calls (main.js:72-80, 140-141). The model returns the rectangles that `drawImage` would receive.
- JPEG encoding through `canvas.toBlob` at quality 0.92 and the null-blob branch (main.js:83-99). This is a foreign encoder.
- `URL.createObjectURL`/`revokeObjectURL` and the anchor click that starts the download (main.js:91-93, 164-168). This is browser I/O.
- `new Date()` (main.js:156). Its getter values are the `Clock` parameter.
- IEEE-754 rounding of the layout arithmetic. Coordinates are exact rationals.
- Zero or negative image sizes. `CalcFit` and `DrawTopBottom` require positive sizes. In JavaScript a zero side gives an `Infinity` ratio. `Math.min` then takes the other ratio, so a 0 x h source fits to 0 x maxH and a w x 0 source to maxW x 0. A 0 x 0 source gives `NaN` for both sides. A source with exactly one negative side gets a negative scale and a rectangle with a negative side. A source with both sides negative gets the more negative ratio, so both sides come out positive and one overshoots its bound; for example, -800 x -600 into 3508 x 2480.5 gives 3508 x 2631. The browser never reports a negative `img.width` or `img.height`.
- `FileName.DownloadNameFields`, `FileName.DownloadNameInjective` and `FileName.MinuteFieldShifted` are stated only for years 1000 to 9999 and for clocks in the getters' ranges. For other years the year field has a different width, because the source does not pad it.
