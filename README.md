# Features carousel and asset URLs, modelled in Dafny

This project models the two pieces of real logic in the website's source.

1. **The features carousel** (`CE_Features`). Its N cards are laid out three
   times in one strip. The strip is moved sideways by an offset `x`. The
   slider is four cards wide, so a card is a quarter of the slider's width,
   and one cycle is N card widths. On mount the strip sits at `-cycle`, and a
   linear, endlessly repeating 20-second animation moves it one cycle left.
   - Grabbing the strip stops the animation.
   - Dragging moves the strip with no bounds.
   - Releasing does four things in order. It snaps `x` to the nearest multiple
     of four card widths, using `Math.round`. It shifts the snap point by one
     cycle if it lies outside the middle band `[-2 cycle, -cycle]`. It wraps
     the result with JavaScript's `%`. Then it restarts the loop from there.
2. **Asset URL resolution**. An asset path gets a leading "/" and is put
   after a base URL. The base URL is the browser origin, or `https://` plus
   `VERCEL_URL`, or `http://localhost:3000`.

Files:

- `wrappers.dfy`: `Option`.
- `jsmath.dfy`: JavaScript number semantics over exact reals.
  `Math.round` is `(r + 1/2).Floor`, so halves go up. `%` is the truncated
  remainder, with the sign of the dividend. The module also defines "is a
  whole multiple of" and "agrees modulo".
- `carousel.dfy`: the pure formulas (strip, snap, re-centre, wrap), their
  lemmas, and the class `FeaturesCarousel`. The class holds the state that the
  component changes in place: the motion value `x`, the `cardWidth` state and
  the animation controls.
- `assets.dfy`: `getBaseUrl` and `getAssetUrl`. The environment is a
  parameter of type `Runtime`.

Some properties one might expect of an infinite carousel do not hold of this
code:

- The wrap `((x + cycle) % cycle) - cycle` puts `x` in the open interval
  `(-2 cycle, 0)`, which is wider than the band `[-2 cycle, -cycle]` that
  re-centring aims for (`Carousel.Normalize`).
- Releasing is not idempotent (`Carousel.DragEndNotIdempotent`).
- Releasing one cycle further along can show different cards when the snap
  group of 4 does not divide N. It does not divide N = 6
  (`Carousel.CycleDragMayChangeCards`). When the group does divide N, the
  shown cards are the same (`Carousel.DragEndCycleShift`).
- With six cards of width 200, a drag of -50 from -1200 comes to rest at
  -1600 (`Carousel.DragEndWorkedExample`).
- The card width is a quarter of the slider's width.
- Nothing records whether a drag is in progress. Grabbing the strip only stops
  the animation.

## Model

| member | source | states |
|---|---|---|
| `Carousel.Tripled` | src/app/_element/client.features.tsx:47 | the strip has 3N slides; slides i, i+N and i+2N all show card i |
| `Carousel.FeaturesCarousel.constructor` | src/app/_element/client.features.tsx:47-52 | on mount the strip is tripled, `x` and `cardWidth` are 0, and nothing is animating |
| `JsMath.Round` | src/app/_element/client.features.tsx:85 | `Math.round(r)` lies in (r - 1/2, r + 1/2] |
| `JsMath.RoundUnique` | src/app/_element/client.features.tsx:85 | it is the only integer in that window, so ties go toward +infinity |
| `JsMath.Trunc` | src/app/_element/client.features.tsx:57 | the quotient behind `%` is truncated toward zero: it is within 1 of r, on r's side of zero |
| `JsMath.JsRem` | src/app/_element/client.features.tsx:57 | JS `a % b` is smaller than b in magnitude, never has the sign opposite to a, and differs from a by a whole multiple of b |
| `Carousel.SnapPoint` | src/app/_element/client.features.tsx:84-85 | the snap point is a whole multiple of the step, and lies in (x - step/2, x + step/2] |
| `Carousel.SnapPointUnique` | src/app/_element/client.features.tsx:84-85 | it is the only multiple of the step in that window |
| `Carousel.SnapPointShift` | src/app/_element/client.features.tsx:84-85 | moving the released offset by whole steps moves the snap point by the same amount |
| `Carousel.SnapTieGoesUp` | src/app/_element/client.features.tsx:84-85 | with step 400, -600 snaps to -400 |
| `Carousel.Recenter` | src/app/_element/client.features.tsx:87-97 | the result agrees with the snap point modulo the cycle; it equals the snap point exactly when that is in [-2 cycle, -cycle]; it is in that band when the snap point is in [-3 cycle, 0]; it moves by at most one cycle, left when the snap point is past -cycle and right when it is below -2 cycle, so it is exactly one shift and a farther snap point stays outside the band |
| `Carousel.DragEndX` | src/app/_element/client.features.tsx:80-98 | with width 0 the offset is unchanged; otherwise the result agrees with the snap point modulo the cycle |
| `Carousel.ReleaseShowsSnappedCards` | src/app/_element/client.features.tsx:116-119 | after snapping and wrapping, the offset still agrees with the snap point modulo the cycle |
| `Carousel.DragEndInBand` | src/app/_element/client.features.tsx:84-97 | a release within one cycle of the band, less half a step, lands in [-2 cycle, -cycle] |
| `Carousel.DragEndCycleShift` | src/app/_element/client.features.tsx:84-97 | when the snap group divides N, releasing one cycle further along gives the same result modulo the cycle |
| `Carousel.CycleDragMayChangeCards` | src/app/_element/client.features.tsx:84-97 | with N = 6 and groups of 4, releasing one cycle further along can end two cards away |
| `Carousel.DragEndNotIdempotent` | src/app/_element/client.features.tsx:84-97 | with width 100, -400 goes to -1000 and then -1000 goes to -800 |
| `Carousel.DragEndWorkedExample` | src/app/_element/client.features.tsx:80-98 | six cards of width 200, released at -1250, end at -1600, which the wrap leaves alone |
| `Carousel.Normalize` | src/app/_element/client.features.tsx:55-57 | the wrapped offset lies in (-2 cycle, 0), agrees with x modulo the cycle, and equals x when x is already in that interval; it lands in [-cycle, 0) when x + cycle >= 0 and in (-2 cycle, -cycle] when x + cycle <= 0, the effect of the truncated `%` |
| `Carousel.NormalizeIdempotent` | src/app/_element/client.features.tsx:55-57 | wrapping twice is the same as wrapping once |
| `Carousel.FeaturesCarousel.ResumeAnimation` | src/app/_element/client.features.tsx:54-68 | x becomes its wrap, which lies in (-2 cycle, 0); the controls run a linear 20 s loop, repeated forever, toward x - cycle |
| `Carousel.FeaturesCarousel.Setup` | src/app/_element/client.features.tsx:70-76 | with no slider element nothing changes; otherwise cardWidth is the width / 4, x is -cycle (a fixed point of the wrap), and the loop targets -2 cycle |
| `Carousel.FeaturesCarousel.HandleDragEnd` | src/app/_element/client.features.tsx:80-98 | x becomes `DragEndX` of the released offset, and is unchanged when cardWidth is 0 |
| `Carousel.FeaturesCarousel.DragStart` | src/app/_element/client.features.tsx:115 | the animation is stopped |
| `Carousel.FeaturesCarousel.DragMove` | src/app/_element/client.features.tsx:113-114 | x moves by the drag delta, with no bounds |
| `Carousel.FeaturesCarousel.DragEnd` | src/app/_element/client.features.tsx:116-119 | x is the wrap of the snapped, re-centred offset, it lies in (-2 cycle, 0), and the loop runs from there toward x - cycle |
| `Assets.BaseUrl` | src/app/_function/_util.assets.ts:10-22 | in a browser, the origin; on a server with a truthy `VERCEL_URL`, "https://" followed by it; otherwise "http://localhost:3000" |
| `Assets.BrowserIgnoresVercelUrl` | src/app/_function/_util.assets.ts:12-14 | in a browser, `VERCEL_URL` plays no part |
| `Assets.EmptyVercelUrlIsUnset` | src/app/_function/_util.assets.ts:17-21 | an empty `VERCEL_URL` falls through to localhost, as if it were unset |
| `Assets.ServerBaseIsAbsolute` | src/app/_function/_util.assets.ts:16-21 | on a server, the base URL starts with "https://" or "http://" |
| `Assets.NormalizePath` | src/app/_function/_util.assets.ts:31 | the result starts with "/", ends with the input, and is at most one character longer; it equals the input exactly when the input starts with "/" |
| `Assets.NormalizePathShortest` | src/app/_function/_util.assets.ts:31 | the normalised path is the shortest string that starts with "/" and ends with the input, and the only one of that length |
| `Assets.NormalizePathIdempotent` | src/app/_function/_util.assets.ts:31 | normalising twice is the same as normalising once |
| `Assets.AssetUrl` | src/app/_function/_util.assets.ts:29-41 | the base URL is a prefix, a "/" follows it, then the normalised path; the input path is a suffix |
| `Assets.AssetUrlSameIff` | src/app/_function/_util.assets.ts:29-40 | two paths give the same URL exactly when they normalise to the same path |
| `Assets.AssetUrlOfNormalized` | src/app/_function/_util.assets.ts:29-40 | resolving an already normalised path gives the same URL |
| `Assets.LocalModelUrl` | src/app/_function/_util.assets.ts:29-41 | on a server without `VERCEL_URL`, "assets/earth/earth.gltf" resolves to "http://localhost:3000/assets/earth/earth.gltf"; "//a" keeps both slashes; "" becomes "/" |

## Left out

- Pixel values are exact reals, not IEEE doubles. Rounding error, NaN, infinities and the sign of -0 are not modelled. A -0 from `%` gives the same offset after `- cycle`.
- Carousel.FeaturesCarousel.ResumeAnimation: requires a card width above 0. With width 0 the source takes `% 0`, which makes `x` NaN. The model has no NaN.
- Carousel.FeaturesCarousel.DragEnd: requires a card width above 0, for the same reason. The source's release handler returns early at width 0, but the wrap that follows it still divides by 0. `HandleDragEnd` on its own does model that early return.
- Carousel.FeaturesCarousel.Setup: requires a slider width above 0, because a width of 0 leads to the same `% 0`. It models the effect run whose rendered `cardWidth` already equals the measured width. The first run on mount reads the stale `cardWidth` of 0 in the wrap, which gives NaN. Setting the state re-renders, the effect runs again, and that second run is the one modelled.
- React's asynchronous state updates and re-rendering are not modelled. `cardWidth` is a field that is assigned directly.
- Animation progress is not modelled. The framework moves `x` over time, with easing and with the offset jumping back each repetition. The model records only the command last given to the controls: a target, a duration of 20, linear easing, and repeat forever in loop mode.
- `CardDex` (the card view and its mouse-glow position) and all JSX/layout are left out. The icons are kept as names.
- `validateAssetExists` is left out because it is a network fetch. `logGLTFLoadError` and the `console.log` in `getAssetUrl` are left out because they only log.
- The presentational sections (contact, divisions, numbers, mission, header, trust bar, navbar) are left out. They are UI and DOM observers with trivial state.
- The 3D model components and the page composition are left out. They are rendering, model loading and random star colours.
- The camera-path controller imported by `src/app/page.main.tsx` is not part of this model. Its source file is not among the files modelled.
- `next.config.ts` is left out because it is build configuration.
