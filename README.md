# Image border effect: layout, reveal animation, colour order and alpha keying

This project models, in Dafny, the computational core of a browser tool that
draws three concentric coloured borders around an uploaded image on a fixed
800x800 canvas, animates them in, lets the user reorder or randomise the three
colours, and exports the result with white made transparent. The tool is one
React component (`app.js`). The model covers its plain logic:

- **Layout engine** (`layout.dfy`, module `Layout`): the scale-to-fit factor,
  the centred image rectangle and the three ring rectangles with their
  colours. The component computes these twice, once for the static preview
  and once per animation frame. The model has one function that both frame
  builders call. Arithmetic is exact, over `real`.
- **Reveal animator** (`reveal.dfy`, module `Reveal`, and `frames.dfy`, module
  `Frames`): per-ring progress `clamp01(p*1.5 - 0.2*(2-i))`, which rings are
  drawn and in which order, the growing square clip, the 60-frame sequence
  at progress `i/60`, and the looping playback index. A frame is a list of
  draw commands (background fill, ring strokes with an optional clip, the
  image), not pixels.
- **Colour order** (`border_colors.dfy`, module `BorderColors`): the class
  `ColorOrder` holds the colours and the two drag indices. Its methods model
  drag start, drag over, drop (remove then insert, as two `splice` calls), drag
  end and randomisation. Randomisation picks three distinct colours from the
  15-entry palette.
- **White-to-transparent keying** (`alpha_key.dfy`, module `AlphaKey`): the
  in-place stride-4 loop over RGBA bytes used by the PNG export.

`optional.dfy` holds the `Option` type used for the nullable drag indices and
the nullable image.

## Model

| member | source | states |
|---|---|---|
| `Layout.ComputeLayout` | app.js:73-119 | One uniform factor scales both sides. The image has equal margins left/right and top/bottom. The inner edge of the innermost stroke runs exactly along the image edge. Each outer ring is the next inner ring pushed out by `gutterSize + borderWidth` on every side. Ring k gets `colors[k]`. |
| `Layout.ScaleIsLargestFit` | app.js:78-88 | The scaled image fits in the room `800 - 2*(3*borderWidth + 2*gutterSize)` on both axes. No larger factor fits. The image fills that room along at least one axis, which pins the factor to `min(available/width, available/height)`. |
| `Layout.DecorationFitsCanvas` | app.js:78-119 | The outer edge of the outermost stroke lies within the canvas. It touches the left edge when the width limits the scale (`a/w <= a/h`), and the top edge when the height does. |
| `Layout.SliderRangeKeepsImageVisible` | app.js:78-90 | With width 1..20 and gap 0..20 (the slider ranges at app.js:517-536), the room left is at least 600 and the image gets a positive scale and positive size. |
| `Layout.RingsNested` | app.js:94-119 | Within the slider ranges, every ring's stroke lies inside the outer boundary of the outermost stroke. |
| `Layout.ExampleLayout` | app.js:78-90 | A 400x300 image with width 15 and gap 8 gets scale 1.695 and is placed at (61, 145.75) with size 678 x 508.5. |
| `Reveal.Clamp01` | app.js:253 | The result lies in [0,1]. It equals the input when the input is in [0,1], is 0 below and is 1 above. |
| `Reveal.RingProgress` | app.js:251-253 | A ring's progress lies in [0,1]. It is 0 exactly while `p*1.5 <= 0.2*(2-i)` and 1 exactly once `p*1.5 - 0.2*(2-i) >= 1`. In between it is that linear value. |
| `Reveal.RingProgressMonotone` | app.js:253 | A ring's progress never decreases as global progress increases. |
| `Reveal.InnerRingLeads` | app.js:252-253 | An outer ring is never further along than the ring just inside it. |
| `Reveal.VisibleRings` | app.js:248-256 | Ring i is drawn exactly when its progress is positive. The drawn rings always form a prefix of the order 2, 1, 0. |
| `Reveal.VisibleRingsGrow` | app.js:248-256 | Rings drawn at some progress are drawn, in the same order, at every later progress. |
| `Reveal.InnerRingDrawnWhenStarted` | app.js:253-256 | At every positive progress the inner ring (2) is drawn, first. |
| `Reveal.MaskRect` | app.js:264-275 | The clip is a square centred on the canvas centre, with half-extent `rp * max(canvas width, canvas height)`. |
| `Reveal.MaskCoversCanvas` | app.js:264-276 | The clip square covers the whole canvas exactly when the ring's progress is at least one half. |
| `Reveal.MaskGrows` | app.js:264-275 | A larger ring progress gives a clip square that contains the smaller one. |
| `Reveal.HalfRevealedRingUnclipped` | app.js:260-279 | Within the slider ranges, a ring whose progress is at least one half lies wholly inside its clip square, so clipping no longer hides any of it. |
| `Frames.StaticFrame` | app.js:57-131 | The static preview starts with the white background. Without an image it is only that. With an image it strokes rings 0, 1, 2 unclipped, then draws the image at the layout's image rectangle. Stroke k uses the layout's ring k rectangle, `colors[k]` and line width `borderWidth`. |
| `Frames.AnimationFrame` | app.js:186-290 | An animation frame starts with the white background. It is only that without an image, and ends with the image at the layout's image rectangle otherwise. |
| `Frames.AnimationMatchesStatic` | app.js:198-287 | An animation frame strokes exactly the visible rings in the order 2, 1, 0. Each stroke is clipped to the ring's reveal square. Apart from the clip, each stroke is identical to that ring's stroke in the static preview: same rectangle, colour and line width. Background and image match the static preview. |
| `Frames.FrameProgress` | app.js:297-299 | Every frame's progress `i/60` lies in [0,1). |
| `Frames.FrameProgressIncreasing` | app.js:297-299 | Frame progress strictly increases with the frame index. |
| `Frames.FrameRevealSchedule` | app.js:297-304 | In the 60-frame run, ring k is drawn exactly from frame `8*(2-k)+1` and is complete exactly from frame `40+8*(2-k)`. So frame 0 shows no ring and frames 56..59 show all three in full. |
| `Frames.GenerateAnimationFrames` | app.js:293-307 | Exactly 60 frames are produced, and frame i is the animation frame at progress `i/60`. |
| `Frames.NextFrameIndex` | app.js:334 | The playback index stays below the frame count. It advances by one and wraps from the last frame to 0. |
| `Frames.PlaybackCycles` | app.js:321-341 | After t steps from frame 0, playback is at frame `t mod n`, so it shows every frame in order and then starts again. |
| `Frames.Playback.constructor` | app.js:317-321 | Playback of a non-empty frame sequence starts at frame 0. |
| `Frames.Playback.AnimateFrame` | app.js:322-338 | Shows the current frame and reports `frameIndex / frames.length * 100` as the progress. Moves to the wrapped next index and keeps the index in bounds. |
| `BorderColors.Remove` | app.js:153 | `splice(i, 1)` gives a list one shorter whose elements before i are unchanged and whose later elements shift down by one. |
| `BorderColors.Insert` | app.js:156 | `splice(i, 0, c)` gives a list one longer with c at i. Elements before i are unchanged and later elements shift up by one. |
| `BorderColors.Move` | app.js:148-158 | A drop's reorder keeps the length and is a permutation of the colours (same multiset). The dragged colour ends up at the drop index. |
| `BorderColors.MoveAt` | app.js:149-156 | Element by element: the dragged colour lands at the target. The colours between source and target shift by one toward the source. All other colours stay where they were. |
| `BorderColors.MoveRoundTrip` | app.js:145-164 | Dragging from a to b and then from b to a restores the original order. |
| `BorderColors.MovePreservesDistinct` | app.js:145-164 | Reordering never makes two rings share a colour when all three colours were different. |
| `BorderColors.UnchosenColorExists` | app.js:176-181 | While fewer than three colours are chosen, some palette colour is still unchosen, so the loop can always progress. |
| `BorderColors.PickDistinctColors` | app.js:173-181 | The randomisation loop yields exactly three pairwise distinct colours, each from the palette. |
| `BorderColors.ColorOrder.constructor` | app.js:6-10 | The state starts with the default colours and no drag in progress. |
| `BorderColors.ColorOrder.DragStart` | app.js:134-136 | Records the dragged swatch and changes nothing else. |
| `BorderColors.ColorOrder.DragOver` | app.js:139-142 | Records the hovered swatch and changes nothing else. |
| `BorderColors.ColorOrder.Drop` | app.js:145-164 | With both indices set and different, the colours become the dragged colour moved to the hovered position. Otherwise they are unchanged. Either way the result is a permutation, and both drag indices are cleared. |
| `BorderColors.ColorOrder.DragEnd` | app.js:167-170 | Clears both drag indices and leaves the colours alone. |
| `BorderColors.ColorOrder.Randomize` | app.js:173-183 | The colours become three pairwise distinct palette colours. The drag indices are untouched. |
| `AlphaKey.KeyPixel` | app.js:441-443 | A pixel's RGB bytes are unchanged. Its alpha becomes 0 when RGB is (255,255,255) and is unchanged otherwise. |
| `AlphaKey.KeyWhite` | app.js:439-444 | The reference definition of the keying pass, one pixel at a time. Its contract gives only the length, which is unchanged. Its contents are stated by `KeyWhiteAt`. |
| `AlphaKey.KeyWhiteAt` | app.js:439-444 | Byte k of the keyed data is 0 when k is an alpha byte of a pure-white pixel, and equals the original byte otherwise. So every RGB byte and every non-white pixel's alpha is unchanged. |
| `AlphaKey.KeyWhiteIdempotent` | app.js:439-444 | Keying already keyed data changes nothing. |
| `AlphaKey.MakeWhiteTransparent` | app.js:438-444 | The in-place loop leaves the array equal to the keyed version of its old contents. |

## Notes on the model

- Geometry uses exact `real` arithmetic, so the layout equalities hold
  exactly. The component computes in IEEE-754 doubles.
- Image width and height are positive integers (the decoded image's natural
  size). Border width and gap are integers, as the sliders deliver them
  through `parseInt`. The layout itself admits any integer values. The
  properties that need the slider ranges assume them explicitly.
- On a degenerate layout (no room left for the image) the code neither
  clamps the scale nor skips the image (app.js:78-90). The model follows the
  code and proves that within the slider ranges the scale is positive anyway.
- `DragStart` and `DragOver` take an index below 3, because the component only
  calls them with the index of one of its three swatches.
- `MakeWhiteTransparent` takes data whose length is a multiple of 4, as the
  RGBA image data of a canvas always is.

## Left out

- Rasterisation: `fillRect`, `strokeRect`, `rect`/`clip`, `save`/`restore`,
  `drawImage`, `getImageData`/`putImageData`. These are Canvas 2D calls. The
  model produces the commands and rectangles handed to them.
- React state and effects (`useState`, `useEffect` and its dependency list,
  the `isAnimating` early return of the preview effect), the JSX markup and
  `ReactDOM.render`. These are UI plumbing.
- Image upload through `FileReader`/`Image` and the `image.*` MIME check.
  These are I/O. The model starts from the decoded image's size.
- The `requestAnimationFrame`/`cancelAnimationFrame` scheduling, stopping and
  unmount cleanup. These are event-loop scheduling. Only the index step of
  `animateFrame` is modelled.
- GIF encoding through the gif.js worker pool, the PNG `toDataURL`, and the
  download links. These are foreign libraries, concurrency and I/O.
- `BorderColors.PickDistinctColors`: `Math.random` is replaced by a
  nondeterministic choice among the palette colours not yet chosen. This
  folds the `includes` rejection into the choice. The source loop ends only
  with probability 1. The model always ends after three picks.
- The empty function `updateCanvasWithImage`, which does nothing.
- IEEE-754 rounding in the layout and in the reveal schedule, for example
  `0.2` and `i / 60` not being exact binary fractions.
- `Frames.FrameRevealSchedule`: holds over exact reals. In doubles,
  `(56/60)*1.5 - 0.4` evaluates just below 1, so the program completes ring 0
  from frame 57 rather than 56. The picture is the same, because the clip
  already covers the canvas from ring progress 0.5.
