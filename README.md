# Constellation background, text scramble and loader — a Dafny model

This project models the stateful logic of `script.js`, the effects script
of a barber shop's single-page site ("Barbearia do Talento"):

- **the particle constellation** — a field of at most 80 drifting particles
  on a full-window canvas. Each animation tick moves every particle by its
  velocity, pushes it away from the pointer when the pointer is within 120
  units, and snaps it to the opposite edge when it leaves the canvas. Pairs
  of particles closer than 150 units are joined by a faint line whose alpha
  falls off linearly with distance;
- **the text scramble** — a title that reveals its characters one by one
  through a sequence of frames of random glyphs;
- **the loader** — a progress bar that rises by random steps until it is
  full.

Every `Math.random()` value is a parameter in [0, 1). Every `Math.sqrt`
result is a parameter `dist` with `dist >= 0 && dist * dist == dx * dx + dy * dy`.
Coordinates are Dafny `real`s, an idealisation of the script's doubles.
Canvas sizes are `nat`s, because canvas dimensions are integers.

Files and modules:

- `random.dfy` (`Random`): the range of a random draw.
- `particles.dfy` (`Particles`): particle records, seeding (`Reset`), and the
  tick update (`Drift`, `Repel`, `Wrap`, combined in `Stepped`). The
  step-by-step method `Update` is proved equal to `Stepped`. The module also
  holds the repulsion geometry lemmas.
- `connections.dfy` (`Connections`): `drawConnections` as a nested loop that
  returns the `(i, j, alpha)` list the stroke calls would receive.
- `field.dfy` (`ParticleField`): the class `Field`, which holds the mutable
  canvas size, particle list and pointer position. Its methods model
  `initParticles`, `animateParticles` and the resize and mousemove
  listeners.
- `scramble.dfy` (`Scramble`): the frame function of `TextScramble.animate`
  and a class for the element and its interval timer.
- `loader.dfy` (`Loader`): `updateLoader` as a class with the progress
  counter, and its termination argument.

Points where the code behaves differently than one might expect:

- After a tick a particle lies in `[0, width] × [0, height]`, not in
  `[0, width) × [0, height)`. A coordinate below 0 is snapped to exactly
  `width` or `height` (script.js:86-89).
- A pointer at exactly the drifted particle position (`dist == 0`) is not
  skipped. Line 79 only tests `dist < 120`, so lines 81-82 divide by zero.
  The model therefore requires `dist > 0` of the caller (`PointerDistance`).
- The resize listener only resizes the canvas. It neither reseeds nor
  restarts the field (script.js:141-143), so `Field.Resize` keeps the
  particles as they are.
- Speeds are drawn from `[-0.2, 0.2)`, sizes from `[0.5, 2.5)` and opacities
  from `[0.1, 0.6)`: the upper ends are open because `Math.random() < 1`.
  The gold tag is chosen when the draw is above 0.7 (30 %).

## Model

| member | source | states |
|---|---|---|
| `Particles.Reset` | script.js:61-69 | A fresh particle lies in `[0, width) × [0, height)` when the side is positive (at 0 when it is 0). Its size is in `[0.5, 2.5)`, its speeds in `[-0.2, 0.2)` and its opacity in `[0.1, 0.6)`. Its colour is gold iff the colour draw exceeds 0.7. |
| `Particles.Scale` | script.js:62-63 | `Math.random() * side` lies in `[0, side]`, and below `side` when the side is positive. |
| `Particles.Drift` | script.js:72-73 | The Euler step changes only the position. |
| `Particles.Force` | script.js:80 | Inside the repulsion radius (`0 < dist < 120`) the force lies in `(0, 1]`. |
| `Particles.Repel` | script.js:76-83 | Repulsion changes only the position. At `dist >= 120` it changes nothing. |
| `Particles.WrapCoord` | script.js:86-89 | After the snap a coordinate lies in `[0, limit]`. An in-range coordinate is unchanged; one below 0 becomes `limit`; one above `limit` becomes 0. |
| `Particles.Wrap` | script.js:86-89 | After the wrap both coordinates are on the canvas, edges included. Nothing but the position changes. |
| `Particles.Stepped` | script.js:71-90 | After one `update` the particle is in `[0, width] × [0, height]`, whatever its previous position and the pointer. Size, speeds, opacity and colour are unchanged. |
| `Particles.Update` | script.js:71-90 | The field-by-field update (drift, conditional repulsion, four edge tests in source order) computes exactly `Stepped`. |
| `Particles.RepelPushesAway` | script.js:76-83 | For `0 < dist < 120`, repulsion moves the particle straight away from the pointer. Its squared distance to the pointer becomes `(dist + 1.5·force)²`, strictly more than `dist²`. The squared displacement is `(1.5·force)²`, with `0 < 1.5·force <= 1.5`. |
| `Particles.DefaultMouseIsPureDrift` | script.js:72-83 | With the pointer at its initial `(-1000, -1000)` (script.js:48), a particle at a non-negative position with seeded speeds is more than 120 away. Its update is therefore drift followed by the wrap. |
| `Connections.Alpha` | script.js:119 | The alpha `((150 - dist) / 150) * 0.12` of a selected pair lies in `(0, 0.12]`. It is 0.12 at distance 0 and 0.06 at distance 75. |
| `Connections.SelectConnections` | script.js:111-129 | The nested loop yields each pair `i < j` (so never `i == j`) whose distance is below 150, and only those, with its alpha. Links come in loop order, strictly increasing, so no pair appears twice. |
| `Connections.SelectionIsUnique` | script.js:111-129 | The contract of `SelectConnections` determines the result: two lists satisfying it are equal. |
| `ParticleField.ParticleCount` | script.js:102 | The count is `min(80, floor(w·h / 15000))`, so it never exceeds 80. A positive count implies a canvas of positive width, positive height and at least 15000 square units. |
| `ParticleField.StepAll` | script.js:133-136 | Updating every particle keeps the count. Each particle ends on the canvas with its attributes unchanged. |
| `ParticleField.StepAllAtDefaultMouse` | script.js:133-136 | Over particles satisfying the field invariant, with the pointer at its default, every particle's tick is pure drift plus wrap. |
| `ParticleField.Field.constructor` | script.js:47-48 | A new field has no particles and the pointer at `(-1000, -1000)`. |
| `ParticleField.Field.MoveMouse` | script.js:145-148 | The mousemove listener sets the pointer and changes nothing else. |
| `ParticleField.Field.Resize` | script.js:141-143 | The resize listener sets the canvas size only. The particles and the pointer are unchanged, and the field invariant still holds. |
| `ParticleField.Field.InitParticles` | script.js:100-106 | The canvas takes the new size. The particle list is replaced, not appended to, by exactly `ParticleCount(w, h) <= 80` particles; the i-th is `Reset` from the i-th draw. All lie strictly inside the canvas. The pointer is unchanged. |
| `ParticleField.Field.Tick` | script.js:131-139 | Every particle is updated exactly once (`StepAll` of the old list). The count, the canvas and the pointer are unchanged. All particles end on the canvas and the field invariant is kept. With the default pointer the tick is pure drift plus wrap. The returned links are the connection selection over the updated particles. |
| `Scramble.Pick` | script.js:211 | `floor(r · chars.length)` is a valid index into the glyph string. |
| `Scramble.Frame` | script.js:204-213 | A frame has the text's length. Index `i` shows `text[i]` when `i < iteration / 3`. A space stays a space. Every other position shows the glyph its random value picks. |
| `Scramble.FrameSpaces` | script.js:210-211 | A frame shows a space exactly where the text has one. Every unrevealed non-space position shows a character of `chars`. |
| `Scramble.FullyRevealed` | script.js:207-209 | Once `iteration > 3·(length - 1)` the frame equals the text, so the last two frames of a run already show the original. |
| `Scramble.RevealIsMonotone` | script.js:207-209 | A position revealed in one frame shows the original character in every later frame. |
| `Scramble.TextScramble.constructor` | script.js:191-195 | The effect remembers the element's text and does not start the timer. |
| `Scramble.TextScramble.Animate` | script.js:197-202 | Starting resets the frame counter and sets the timer without touching the text. |
| `Scramble.TextScramble.Step` | script.js:203-220 | One timer firing shows `Frame(original, iteration)` and advances the counter. Once the counter reaches `3·length` it shows the original text and clears the timer. |
| `Scramble.TextScramble.Run` | script.js:197-221 | A full run fires the timer exactly `3·length` times (once for empty text) and ends with the original text and the timer cleared. |
| `Loader.NextProgress` | script.js:23-24 | One step never exceeds 100 and rises by less than 30. It either reaches 100 or rises by at least 10, and it strictly increases a progress below 100. |
| `Loader.ReachesComplete` | script.js:22-36 | From progress `p` in `[0, 100]`, any `n` firings with `p + 10n >= 100` fill the bar. From 0 that means at most 10 firings. |
| `Loader.LoaderBar.constructor` | script.js:20 | The bar starts at 0. |
| `Loader.LoaderBar.Update` | script.js:22-36 | A firing sets the progress to `NextProgress` of the old progress. It reschedules iff the progress is still below 100. |
| `Loader.ProgressSnoc` | script.js:22-36 | One more drawing fires once more only while the bar is below 100: the progress then becomes `NextProgress` of the previous one; once full it stays as it was. |
| `Loader.LoaderBar.Run` | script.js:22-40 | From a progress in `[0, 100]`, the first firing and all those it reschedules fill the bar to exactly 100 within 1 to 10 firings. The final progress is `Progress` of the drawings used. Every earlier firing left the bar below 100, so the chain stops at the first firing that fills it. The progress never falls from one firing to the next. |

## Left out

- Canvas drawing: `clearRect`, `arc`/`fill` of each particle, and the
  `moveTo`/`lineTo`/`stroke` calls and `rgba` strings. The model keeps only
  the data they receive: positions, and the `(i, j, alpha)` links.
- Host scheduling: `requestAnimationFrame`/`cancelAnimationFrame`,
  `setTimeout`/`setInterval` delays and the listener registrations. A tick
  or a timer firing is an explicit method call. So `initParticles`'s closing
  `cancelAnimationFrame` and first `animateParticles()` are the caller's
  `Tick`. The loader's final callback (hide the loader, `initParticles`,
  `initCounters`) is not modelled.
- `Math.sqrt` and `Math.random` themselves. Their results are parameters.
  IEEE-754 rounding, overflow and NaN propagation are not modelled; in
  particular the NaN position the source produces when `dist == 0` is
  excluded by a precondition.
- `Scramble.Frame` takes one random value per position, although the source
  draws only for unrevealed non-space positions. Unused values do not
  affect the frame.
- `Scramble.Frame`, `Scramble.TextScramble`: a Dafny string is a sequence
  of Unicode scalar values, while the script's `length`, `split('')` and
  indexing work on UTF-16 code units. For text with a character outside the
  Basic Multilingual Plane the script counts two positions for it (so the
  timer fires six more times) and can show half a surrogate pair; the model
  counts one position.
- A second `animate()` on the same element while a timer is running (two
  intervals) is not modelled.
- The custom cursor, tilt cards, scroll reveal, navbar, hamburger menu,
  counters (`easeOutExpo`, `toLocaleString`), smooth scroll, price-item glow,
  today highlight and parallax rings: DOM and CSS effects with no state of
  their own worth verifying, or floating-point transcendental and locale
  formatting.
