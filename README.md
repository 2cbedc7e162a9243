# Scratch card element, modelled in Dafny

This project models `wc-scratch`, a web component that lays a canvas over its
slotted content. The user scratches the canvas off with the mouse or a finger. The
element can also report, through `percentage-update` events, how much of the canvas
has been cleared. What is modelled is the `Scratch` class with the DOM and canvas
plumbing removed:

- the gesture state machine (`isDrawing`, `lastPosition`, driven by
  `handleStart`, `handleMove`, `handleEnd` and the `touchmove` listener);
- stroke issuing (`scratch`), which sends a stroke command to the 2D context;
- the coverage sampler (`calcAreaCleared`, `getArrayWithValueOfQuadrupleAtNthIndex`);
- configuration resolution (`brushShape`, `brushSize`, `scratchColor`,
  `percentageUpdate`) over the element's attributes;
- the surface lifecycle (`connectedCallback`, `attributeChangedCallback`,
  `fillArea`, `clearArea`) and event emission (`emitEvent`).

Files:

- `Wrappers.dfy`: `Option`.
- `NumberParsing.dfy`: ECMAScript `parseInt(s, 10)` (section 19.2.5 of ECMA-262),
  and the decimal rendering that the `${n}px` template literals use.
- `Config.dfy`: the four attribute getters.
- `Coverage.dfy`: the sampler as pure functions, along with its lemmas.
- `ScratchElement.dfy`: the class `Scratch` and the command-recording `Context2D`.

How the browser is represented:

- The 2D context is a `Context2D` object with a `log` of `Command`s.
  - A `Stroke(composite, from, to, lineWidth, lineJoin)` is one beginPath / moveTo /
    lineTo / closePath / stroke sequence.
  - A `FillRect` is one `fillRect`, together with the composite operation and fill
    style set just before it.
- Dispatched events are appended to the element's `events`.
- Attributes are a `map<string, string>`.
- Foreign calls become parameters:
  - the context `getContext` returns;
  - the buffer `getImageData` returns (`seq<Byte>`);
  - the content's bounding rect;
  - `CSS.supports('color', _)`;
  - the canvas offset (`offsetLeft`, `offsetTop`).
- Coordinates are exact `real`s, so the `+0.1` nudge is exact.
- The percentage is computed on exact rationals. `Percentage` is proved equal to the
  integer `(2·cleared·14600 + L) / (2·L)`, where L is the number of alpha values.

Points where the code behaves differently from what one might expect. The model
follows the code in each case.

- `scratch` returns before it updates `lastPosition` when there is no context. So
  `HandleMove` without a context leaves `lastPosition` alone. `HandleStart` sets it
  before calling `scratch`, so it always updates it.
- A second `handleStart` while a gesture is running issues a zero-length stroke,
  without the nudge, because `isDrawing` is already true.
- A `brush-size` that has no digit after its leading white space and optional sign
  gives NaN (`None`), not 10. Only an absent attribute gives 10.
- The sampler divides by L/146, but it takes ceil(L/146) samples. The payload can
  therefore exceed 100. A 1200-byte all-zero buffer gives 146
  (`AreaClearedCanExceedHundred`). The bound [0, 100] holds when L is a multiple of
  146 (`AreaClearedBound`).
- The test at test/scratch.test.ts:192-205 stops early (its loop returns early). Had
  it run, its half-cleared buffer would report 49, not the 50 it expects
  (`HalfClearedBufferGivesFortyNine`).

## Model

| member | source | states |
|---|---|---|
| `NumberParsing.TrimStart` | src/scratch/scratch.ts:127 | parseInt's first step: the result is a suffix of the input, everything dropped before it is ECMAScript white space or a line terminator, and the result does not start with either |
| `NumberParsing.DigitPrefix` | src/scratch/scratch.ts:127 | the digits parseInt reads: the longest all-digit prefix, followed by a non-digit or by the end |
| `NumberParsing.ParseInt` | src/scratch/scratch.ts:127 | parseInt(s, 10) is NaN exactly when no digit follows the white space and the optional sign; without a minus sign the result is non-negative |
| `NumberParsing.DecimalString` | src/scratch/scratch.ts:105-107 | `${n}` of a non-negative integer is a non-empty string of digits without a leading zero, except "0" itself for n = 0 |
| `NumberParsing.DecimalStringValue` | src/scratch/scratch.ts:105-107 | the digits of `${n}` have the value n |
| `NumberParsing.DigitPrefixOfDigits` | src/scratch/scratch.ts:127 | parseInt's digit scan stops exactly where a digit run ends |
| `NumberParsing.ParseIntDecimal` | src/scratch/scratch.ts:105-107 | parseInt reads back a rendered number followed by a non-digit, e.g. the canvas's "Npx" style gives N |
| `NumberParsing.ParseIntNegative` | src/scratch/scratch.ts:127 | a leading minus sign negates the value parseInt reads |
| `NumberParsing.DigitsValueLeadingZero` | src/scratch/scratch.ts:127 | a leading zero does not change the value of a digit string, so "08" reads as 8 |
| `NumberParsing.ParseIntUnsigned` | src/scratch/scratch.ts:127 | any digit run (leading zeros included) followed by the end or a non-digit parses to the run's value |
| `NumberParsing.ParseIntPlus` | src/scratch/scratch.ts:127 | a leading "+" before such a run is skipped and the value is the run's value |
| `NumberParsing.ParseIntMinus` | src/scratch/scratch.ts:127 | a leading "-" before such a run gives the negated value of the run |
| `NumberParsing.TrimStartSkipsWhiteSpace` | src/scratch/scratch.ts:127 | leading white space is removed completely, whatever follows it |
| `NumberParsing.ParseIntOfTrimmed` | src/scratch/scratch.ts:127 | two strings that agree once their leading white space is trimmed have the same parseInt |
| `NumberParsing.ParseIntSkipsWhiteSpace` | src/scratch/scratch.ts:127 | leading white space never changes the result of parseInt |
| `Config.BrushShape` | src/scratch/scratch.ts:134-138 | the attribute's line join when it is bevel, miter or round; Round for every other value and when the attribute is absent |
| `Config.BrushSize` | src/scratch/scratch.ts:126-128 | Some(10) when the attribute is absent; otherwise parseInt of its value, NaN included |
| `Config.ScratchColor` | src/scratch/scratch.ts:144-148 | the attribute's value when CSS accepts it as a color; otherwise #000000; the result is always black or a supported color |
| `Config.PercentageUpdate` | src/scratch/scratch.ts:154-156 | reporting is on exactly when the attribute is present, whatever its value |
| `Coverage.EveryNthLength` | src/scratch/scratch.ts:284-286 | a loop stepping from i by step over a sequence of length len visits ceil((len − i)/step) indices, none when i ≥ len |
| `Coverage.EveryNthElement` | src/scratch/scratch.ts:284-286 | the k-th value such a loop collects is s[i + step·k] |
| `Coverage.QuadrupleAt` | src/scratch/scratch.ts:282-288 | getArrayWithValueOfQuadrupleAtNthIndex's result: empty when n is past the end, otherwise ceil((len − n)/4) entries, entry k being s[n + 4k] |
| `Coverage.QuadrupleAtWhole` | test/scratch.test.ts:146-160 | on whole quadruples and 0 ≤ n ≤ 3, channel n has exactly len/4 entries, entry k being s[n + 4k] |
| `Coverage.Alpha` | src/scratch/scratch.ts:265 | the alpha channel of a buffer of at least four bytes is non-empty and starts with byte 3, so the sampler's division never sees L = 0 |
| `Coverage.Samples` | src/scratch/scratch.ts:269-270 | the values the loop inspects: non-empty for a non-empty alpha channel, starting with alpha[0] (all indices in `Coverage.SamplesAt`) |
| `Coverage.SamplesAt` | src/scratch/scratch.ts:266-271 | the sampler inspects alpha indices 0, 146, 292, …: ceil(L/146) samples, sample k being alpha[146k] |
| `Coverage.CountZeros` | src/scratch/scratch.ts:270 | the cleared count is the number of occurrences of 0 among the samples (their multiset's multiplicity of 0); hence at most the number of samples, 0 exactly when no sample is 0, and the full count exactly when every sample is 0 |
| `Coverage.RoundHalfUp` | src/scratch/scratch.ts:272 | Math.round gives the integer within one half below or strictly less than one half above its argument |
| `Coverage.PercentageIsRounded` | src/scratch/scratch.ts:267-272 | the integer formula (2c·14600 + L) div 2L is Math.round((c / (L/146)) · 100) |
| `Coverage.Percentage` | src/scratch/scratch.ts:267-272 | the reported percentage is the source's expression (cleared / totalChunks) · 100 rounded half up, on exact rationals |
| `Coverage.AreaCleared` | src/scratch/scratch.ts:265-272 | the payload for a buffer is Math.round((c / (L/146)) · 100) on exact rationals, c being the number of sampled alpha values equal to 0 and L the alpha channel's length |
| `Coverage.PercentageBound` | src/scratch/scratch.ts:266-272 | whenever the count is between 0 and L div 146, the percentage is between 0 and 100 |
| `Coverage.AreaClearedBound` | src/scratch/scratch.ts:257-273 | calcAreaCleared's payload is between 0 and 100 whenever the alpha channel's length is a multiple of 146 |
| `Coverage.AreaClearedCanExceedHundred` | test/scratch.test.ts:208-217 | without divisibility the bound fails: 1200 zero bytes give 146, not the 100 the test expects |
| `Coverage.NoClearedSampleGivesZero` | test/scratch.test.ts:173-189 | when no sampled alpha value is 0, the payload is 0 |
| `Coverage.AllSamplesClearedGivesHundred` | src/scratch/scratch.ts:265-273 | when L is a multiple of 146 and every sampled alpha value is 0, the payload is 100 |
| `Coverage.HalfClearedBufferGivesFortyNine` | test/scratch.test.ts:192-205 | the test's intended half-cleared 1200-byte buffer gives 49 (samples 255, 255, 0) |
| `ScratchElement.Context2D.constructor` | src/scratch/scratch.ts:52-56 | a context starts with an empty command log |
| `ScratchElement.Scratch.constructor` | src/scratch/scratch.ts:68-82 | a new element is idle at (0, 0), has no events, has a default 300 by 150 canvas and holds the context from getContext('2d') without a read hint |
| `ScratchElement.Scratch.ConnectedCallback` | src/scratch/scratch.ts:101-111 | the canvas becomes the floor of the content's width and height, its style "Npx"; the context is re-acquired with hint = reporting mode; then exactly one source-over fillRect of the whole canvas in the scratch color, and a 0 event only when reporting is on and a context exists |
| `ScratchElement.Scratch.AttributeChangedCallback` | src/scratch/scratch.ts:118-120 | a change of percentage-update re-acquires the context with the matching hint; any other attribute leaves context and hint as they were |
| `ScratchElement.Scratch.HandleStart` | src/scratch/scratch.ts:183-188 | afterwards lastPosition = p − offset and isDrawing holds. With a context, exactly one stroke from p − offset, to p − offset + (0.1, 0.1) if no gesture was running and to p − offset itself otherwise, with brushSize and brushShape. Exactly one coverage event follows iff reporting is on and a context exists |
| `ScratchElement.Scratch.HandleMove` | src/scratch/scratch.ts:195-199 | when idle, nothing changes: no stroke, no event, same lastPosition. Otherwise, with a context, one un-nudged stroke from the old lastPosition to p − offset, and lastPosition becomes p − offset; one coverage event iff reporting is on and a context exists |
| `ScratchElement.Scratch.TouchMove` | src/scratch/scratch.ts:88-92 | preventDefault is called exactly when a gesture is running, and the effect is exactly one handleMove in either case |
| `ScratchElement.Scratch.HandleEnd` | src/scratch/scratch.ts:205-207 | isDrawing becomes false; lastPosition, the events and every command log stay as they were (frame) |
| `ScratchElement.Scratch.FillArea` | src/scratch/scratch.ts:213-220 | without a context nothing happens. Otherwise exactly one source-over fillRect(0, 0, width, height) in the scratch color is issued, and one event with payload 0 follows iff reporting is on |
| `ScratchElement.Scratch.ClearArea` | src/scratch/scratch.ts:226-232 | without a context nothing happens. Otherwise exactly one destination-out fillRect(0, 0, width, height) is issued, and one event with payload 100 follows iff reporting is on |
| `ScratchElement.Scratch.ScratchAt` | src/scratch/scratch.ts:239-251 | without a context, nothing at all. With one, one destination-out stroke from lastPosition to the point, nudged by (0.1, 0.1) when idle, with lineWidth = brushSize and lineJoin = brushShape; lastPosition becomes the point |
| `ScratchElement.Scratch.CalcAreaCleared` | src/scratch/scratch.ts:257-274 | without a context no event. With one, the loop over every 146th alpha value emits exactly one event whose payload is the sampler's rounded percentage for the buffer |
| `ScratchElement.Scratch.GetArrayWithValueOfQuadrupleAtNthIndex` | src/scratch/scratch.ts:282-288 | the push loop returns exactly source[n], source[n + 4], … (see `Coverage.EveryNthLength` and `Coverage.EveryNthElement`) |
| `ScratchElement.Scratch.EmitEvent` | src/scratch/scratch.ts:295-298 | each call delivers exactly one event of the given type with the given payload, after all earlier ones |

## Left out

- Shadow DOM, the template, `customElements.define` and the registration of the
  listeners (src/scratch/scratch.ts:1-4, 76-80, 84-94, 301-313): only handler bodies
  and the constructor's initial context and last position (lines 81-82) are modelled. In particular, the destructuring of `targetTouches[0]` on a touch
  event with no touches (which throws) is not modelled.
- The `offsetLeft` and `offsetTop` getters (src/scratch/scratch.ts:163-176): the
  offset is an input. One value is used per call, although `handleStart` reads the
  offsets twice.
- `assignedElements()[0].getBoundingClientRect()`: the bounds are an input. An empty
  slot, which makes the source throw, is not modelled.
- ScratchElement.Scratch.ConnectedCallback: requires non-negative bounds, which a
  bounding client rect always has. canvas.width is an unsigned 32-bit value in the
  browser, and that wrap-around is not modelled.
- ScratchElement.Scratch.CalcAreaCleared: requires a buffer of at least four bytes
  when a context exists. With an empty alpha channel the source divides by zero and
  emits NaN, and getImageData throws on a zero-area canvas. HandleStart and
  HandleMove pass the same requirement on.
- Coverage.AreaClearedBound: the [0, 100] bound is stated only for L a multiple of
  146. The loop takes ceil(L/146) samples, so otherwise the count can exceed L/146 and
  the payload exceed 100 (see `AreaClearedCanExceedHundred`).
- Canvas pixel effects: rasterisation, line-join geometry, compositing, and the reset
  of the bitmap when canvas.width is assigned. Commands are recorded instead, and the
  pixel buffer is an input.
- A stroke's `lineWidth` is recorded as given. The canvas ignores an assignment of NaN
  (`None`) or of a value at most 0 and keeps its previous width; that rule is not
  modelled.
- NumberParsing.DecimalString: renders every n in plain digits. ECMAScript's
  Number-to-String switches to exponent notation from 10^21 on, which a canvas size
  never reaches.
- `getContext`: its result is a parameter, and the model does not decide whether
  the host returns a new context or the existing one. The `willReadFrequently`
  option is recorded as a boolean.
- `CSS.supports` is a parameter.
- Floating point: coordinates, the nudge and the percentage are exact rationals.
  parseInt's result is an unbounded integer, so precision loss beyond 2^53 and the
  sign of −0 are not modelled.
- `scratchSourceImage`: its test (test/scratch.test.ts:274-287) refers to a member
  that the element does not have.
- Test-runner and build configuration (vite.config.ts, vitest.config.ts).
