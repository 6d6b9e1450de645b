# Q logo particles and blog route guard, in Dafny

This project models the two pieces of logic in a small Next.js site. Everything else in the site is markup or a call into a hosted service.

**The interactive "Q" logo** (`components/InteractiveQcanvas.tsx`, module `QCanvas`)

- When the logo image loads, a 96×96 RGBA sample of it is scanned row by row.
- Every sample with alpha above 100 and mean brightness below 250 becomes a particle.
- Each particle is anchored at its sample's position rescaled to the 180×170 canvas. It starts there with zero velocity and the sample's exact colour.
- Every animation frame:
  - a particle within 51 units of the pointer is pushed away;
  - the particle is pulled back to its anchor by a spring of strength 0.1;
  - its velocity is damped by a friction factor of 0.85;
  - it moves by its velocity.
- When the pointer leaves the canvas it is parked at (-1000, -1000).

The component's mutable state is a class, `ParticleCanvas`:
- fields: the particle list and the pointer;
- methods: `OnImageLoad`, `Animate`, `MouseMove` and `MouseLeave`.

The methods are proved against functions on values:
- `Scan` describes the particles one image load appends;
- `Step` describes one frame of one particle.

Beyond the source's own promises, the model proves that the idle update is a strict contraction. The quadratic energy `17e² + 13ev + 170v²` (e is the displacement from the anchor, v the velocity, summed over both axes) is multiplied by exactly 0.85 each frame. So the distance to the anchor decays geometrically while no repulsion fires. Once the pointer has left, no repulsion fires again for any particle whose energy is below 16·949² and whose anchor is on the canvas, so from then on every frame is an idle frame.

**The blog route guard** (`middleware.ts`, module `RouteGuard`)

- Paths starting with `/blog/new` are protected:
  - anonymous requests are redirected to `/blog/login`;
  - signed-in users whose email is not an admin email are redirected to `/blog`.
- A signed-in user asking for `/blog/login` is redirected to `/blog`.
- Every other request passes.

The session lookup is a parameter: the signed-in user's email, or `None`.

## Model

| member | source | states |
|---|---|---|
| QCanvas.Offset | components/InteractiveQcanvas.tsx:61-67 | the four channel reads of a grid sample, at `(y*96+x)*4` to `+3`, stay inside the 96·96·4-byte buffer, and the offset is 4-aligned |
| QCanvas.OffsetsDisjoint | components/InteractiveQcanvas.tsx:63 | two distinct grid samples own disjoint four-byte groups |
| QCanvas.AdmitsAt | components/InteractiveQcanvas.tsx:63-70 | grid cell c passes the test iff its alpha byte at `Offset(c)+3` exceeds 100 and its three colour bytes at `Offset(c)`..`+2` sum to less than 750 |
| QCanvas.Admits | components/InteractiveQcanvas.tsx:68-70 | the admission test `a > 100 && (r+g+b)/3 < 250`, with `(r+g+b)/3` as a real division; an admitted sample is opaque enough and has some channel below 250 |
| QCanvas.AdmitsIff | components/InteractiveQcanvas.tsx:68-70 | a sample is admitted iff `a > 100` and `r+g+b < 750`; alpha exactly 100 and brightness exactly 250 are rejected |
| QCanvas.AnchorX | components/InteractiveQcanvas.tsx:71 | `x / 96 * 180`, computed exactly: column x is anchored at x · 1.875 |
| QCanvas.AnchorY | components/InteractiveQcanvas.tsx:72 | `y / 96 * 170`, computed exactly: row y is anchored at y · 85/48 |
| QCanvas.AnchorBounds | components/InteractiveQcanvas.tsx:71-72 | every grid anchor lies in [0,180)×[0,170); cell (0,0) maps to (0,0) and cell (95,95) to (178.125, 8075/48) |
| QCanvas.AnchorStrictlyIncreasing | components/InteractiveQcanvas.tsx:71-72 | the rescale is strictly increasing on both axes |
| QCanvas.PixelAt | components/InteractiveQcanvas.tsx:73-81 | the particle pushed for a sample is at rest on the sample's anchor and carries the sample's exact RGB bytes |
| QCanvas.Extract | components/InteractiveQcanvas.tsx:61-84 | the particles the loops push for a run of visited cells, in visiting order; never more particles than cells |
| QCanvas.Scan | components/InteractiveQcanvas.tsx:61-84 | the particles one image load pushes: at most 96·96 of them, every one at rest on its anchor |
| QCanvas.ScanStep | components/InteractiveQcanvas.tsx:62-82 | one more iteration of the inner loop appends the visited cell's particle, if it is admitted, to the particles pushed so far |
| QCanvas.Visited | components/InteractiveQcanvas.tsx:61-62 | the nested loops visit 96·96 cells, all inside the grid |
| QCanvas.VisitIndex | components/InteractiveQcanvas.tsx:61-62 | every grid cell has a position in the visiting order (column x of row y is visit y·96+x) |
| QCanvas.VisitedExactlyOnce | components/InteractiveQcanvas.tsx:61-62 | the loops visit a cell iff it is in the grid, in strictly row-major order, so each cell exactly once |
| QCanvas.Admitted | components/InteractiveQcanvas.tsx:70 | the admitted cells are exactly the visited cells that pass the test, and there are no more of them than visited cells |
| QCanvas.ExtractIsAdmittedPixels | components/InteractiveQcanvas.tsx:61-84 | the particles pushed for a run of cells correspond one for one and in order to that run's admitted cells |
| QCanvas.AdmittedRowMajor | components/InteractiveQcanvas.tsx:61-70 | filtering by the admission test keeps the row-major order |
| QCanvas.ScanShape | components/InteractiveQcanvas.tsx:61-84 | one image load appends exactly as many particles as there are admitted grid cells, at most 96·96, the k-th made from the k-th admitted cell in row-major order |
| QCanvas.ScanParticles | components/InteractiveQcanvas.tsx:71-81 | each appended particle sits on its anchor with zero velocity, and comes from an admitted cell whose anchor and exact RGB it carries |
| QCanvas.ScanComplete | components/InteractiveQcanvas.tsx:61-84 | every admitted grid cell has its particle in the list |
| QCanvas.ScanAnchorsOrdered | components/InteractiveQcanvas.tsx:61-72 | particles appear in row-major order of their anchors: top to bottom, then left to right |
| QCanvas.NotAdmittedInEmptyImage | components/InteractiveQcanvas.tsx:63-70 | in a buffer whose alpha bytes are all at most 100, or whose colour bytes are all at least 250, no sample is admitted |
| QCanvas.EmptyImageNoParticles | components/InteractiveQcanvas.tsx:61-84 | a fully transparent or all-white buffer yields no particles |
| QCanvas.ParticleCanvas.constructor | components/InteractiveQcanvas.tsx:45-51 | starts with no particles and the pointer at the sentinel (-1000, -1000) |
| QCanvas.ParticleCanvas.OnImageLoad | components/InteractiveQcanvas.tsx:53-85 | the nested loops append exactly `Scan(data)` to the particle list |
| QCanvas.InEffectRadius | components/InteractiveQcanvas.tsx:97-99 | `dist < effectRadius` without the square root, `dx²+dy² < 51²`; inside it both offsets lie strictly between -51 and 51 |
| QCanvas.RadiusBox | components/InteractiveQcanvas.tsx:97-99 | the proof of `InEffectRadius`'s ensures (both offsets strictly between -51 and 51 inside the circle), not a separate property |
| QCanvas.Repel | components/InteractiveQcanvas.tsx:95-104 | repulsion changes only the velocity, and only when `dx²+dy² < 51²`; otherwise the particle is unchanged |
| QCanvas.Relax | components/InteractiveQcanvas.tsx:106-115 | the spring, friction and move step keeps colour and anchor |
| QCanvas.Step | components/InteractiveQcanvas.tsx:94-116 | one frame of one particle keeps its colour and anchor |
| QCanvas.RelaxFixedPoint | components/InteractiveQcanvas.tsx:106-115 | the idle update leaves a particle unchanged iff it rests on its anchor with zero velocity |
| QCanvas.StepOutsideRadius | components/InteractiveQcanvas.tsx:95-115 | outside the radius a frame is the idle update, `vx' = 0.85·(vx + 0.1·(originalX−x))`, `x' = x + vx'`, and likewise for y |
| QCanvas.SentinelOutOfReach | components/InteractiveQcanvas.tsx:95-99 | with the pointer at (-1000,-1000), every point with x ≥ -949 and y ≥ -949, so every point of the canvas and well beyond, is outside the effect radius |
| QCanvas.RestingStaysAfterLeave | components/InteractiveQcanvas.tsx:94-116 | with the pointer parked at the sentinel, a particle resting on an anchor inside the canvas stays exactly where it is |
| QCanvas.ScannedStillAfterLeave | components/InteractiveQcanvas.tsx:136-139 | a freshly scanned particle is not moved by a frame after the pointer has left |
| QCanvas.CalmStepIsRelax | components/InteractiveQcanvas.tsx:94-116 | with the pointer at the sentinel, a particle with energy below 16·949² and an anchor at x, y ≥ 0 feels no repulsion: its frame is the idle update |
| QCanvas.RelaxKeepsCalm | components/InteractiveQcanvas.tsx:106-115 | the idle update keeps a calm particle calm |
| QCanvas.Frames | components/InteractiveQcanvas.tsx:94-125 | n frames of one particle with the pointer held at (mouseX, mouseY): the colour and the anchor never change |
| QCanvas.FramesAfterLeave | components/InteractiveQcanvas.tsx:94-116 | after the pointer has left, n frames of such a particle are exactly n idle frames |
| QCanvas.SettlesAfterLeave | components/InteractiveQcanvas.tsx:94-116 | after the pointer has left, such a particle's squared distance to its anchor, times 16, is at most 0.85ⁿ of its initial energy after n frames |
| QCanvas.ParticleCanvas.Animate | components/InteractiveQcanvas.tsx:94-116 | a frame keeps the list length and order; particle k becomes `Step` of old particle k; anchors and colours never change |
| QCanvas.ParticleCanvas.MouseMove | components/InteractiveQcanvas.tsx:128-134 | the pointer becomes the given canvas coordinates |
| QCanvas.ParticleCanvas.MouseLeave | components/InteractiveQcanvas.tsx:136-139 | the pointer becomes the sentinel (-1000, -1000) |
| QCanvas.QuadBounds | components/InteractiveQcanvas.tsx:106-115 | the settling form is at least 16·e² and at least 167·v² |
| QCanvas.QuadStep | components/InteractiveQcanvas.tsx:106-115 | one idle frame on one axis multiplies the form by exactly 0.85 |
| QCanvas.Energy | components/InteractiveQcanvas.tsx:106-115 | a particle resting on its anchor has zero energy |
| QCanvas.EnergyBounds | components/InteractiveQcanvas.tsx:106-115 | energy is non-negative and at least 16 times the squared displacement on each axis |
| QCanvas.RelaxEnergy | components/InteractiveQcanvas.tsx:106-115 | one idle frame multiplies a particle's energy by exactly 0.85 |
| QCanvas.RelaxScalesEnergy | components/InteractiveQcanvas.tsx:106-115 | the same, for all particles at once |
| QCanvas.GeometricDecay | components/InteractiveQcanvas.tsx:106-115 | any quantity one idle frame scales by 0.85 is scaled by 0.85ⁿ over n idle frames |
| QCanvas.SettleEnergy | components/InteractiveQcanvas.tsx:106-115 | after n idle frames the energy is exactly 0.85ⁿ of the initial energy |
| QCanvas.SettleKeepsAnchor | components/InteractiveQcanvas.tsx:106-115 | idle frames never change the anchor or the colour |
| QCanvas.SettleDisplacement | components/InteractiveQcanvas.tsx:106-115 | after n idle frames, 16 times the squared distance to the anchor on each axis is at most 0.85ⁿ times the initial energy |
| RouteGuard.Middleware | middleware.ts:7-40 | the only redirect targets are `/blog/login` and `/blog`; the login redirect happens iff the path is protected and there is no session |
| RouteGuard.StartsWith | middleware.ts:17-19 | `startsWith`: the prefix is no longer than the string and agrees with it character by character |
| RouteGuard.IsProtectedPath | middleware.ts:16-19 | `protectedPaths.some(startsWith)` over `['/blog/new']`: a path is protected iff it starts with `/blog/new` |
| RouteGuard.IsAdmin | middleware.ts:29 | `ADMIN_EMAILS.includes(email)` with the list of line 5: only `your.admin@email.com` is an admin |
| RouteGuard.ProtectedExamples | middleware.ts:16-19 | `/blog/new`, `/blog/new/x` and `/blog/newsletter` are protected; `/blog` and `/blog/login` are not |
| RouteGuard.AnonymousProtectedGoesToLogin | middleware.ts:22-26 | an anonymous request for a `/blog/new…` path is redirected to `/blog/login` |
| RouteGuard.NonAdminProtectedGoesToBlog | middleware.ts:28-31 | a signed-in non-admin asking for a `/blog/new…` path is redirected to `/blog` |
| RouteGuard.AdminPassesProtected | middleware.ts:21-39 | an admin asking for a `/blog/new…` path passes |
| RouteGuard.LoginPageDecision | middleware.ts:35-39 | `/blog/login` redirects a signed-in user to `/blog` and lets an anonymous one through |
| RouteGuard.NextIff | middleware.ts:15-39 | a request passes iff it is not a protected path reached without admin rights, and not the login page reached while signed in |
| RouteGuard.RedirectToBlogIff | middleware.ts:28-37 | a redirect to `/blog` happens iff there is a session and the request is either a non-admin on a protected path or the login page |
| RouteGuard.NoRedirectChain | middleware.ts:22-37 | following a redirect with the same session always passes, so there is no redirect loop |

## Left out

- The repulsion maths (`Math.sqrt`, `atan2`, `cos`, `sin`, force strength 1.5) is a parameter `push`: it is floating-point trigonometry, and the model only fixes when it applies (`dx²+dy² < 51²`, the source's `dist < 51` without the square root) and that it changes only the velocity.
- Numbers are real numbers, not IEEE doubles: the anchor rescale, the spring and friction update and the energy contraction are exact over the reals; nothing claims convergence under rounding.
- The pointer scaling in `handleMouseMove` (`getBoundingClientRect`, `clientX - rect.left`, the scale factors) depends on DOM layout; `MouseMove` takes the pointer already in canvas coordinates.
- Image loading, `drawImage`/`getImageData` decoding, and canvas drawing (`clearRect`, `arc`, `fill`) are host calls; `OnImageLoad` takes the decoded buffer as a byte sequence.
- `requestAnimationFrame`, the `animate()` call that starts the loop, `cancelAnimationFrame`, listener registration and teardown, and the React `isClient` gate are host scheduling; `Animate` is one frame.
- `animate` returning early when the canvas has no 2D context is host behaviour and is not modelled.
- The scan stride is the source's `pixelGap = 1`; other strides are not modelled.
- The particles are objects mutated in place by `animate`; the model replaces each list element by its updated value, which is the same thing because no particle is shared.
- A second image load appends to the existing list as the source does (`OnImageLoad` ensures `old(pixels) + Scan(data)`); nothing models how often the browser fires it.
- Energy: the converse "zero energy implies at rest" is not stated (the whole form is positive definite, but that direction was left unproved).
- The Supabase session fetch, `NextResponse`/`URL` construction and the `matcher` config are framework calls; the session is an input, and the matcher (which only routes `/blog/new` and `/blog/login` through the guard) is not modelled, so `Middleware` is stated for every path.
- A session whose user has no email is modelled like a non-admin email: `ADMIN_EMAILS.includes(undefined)` is false.
- The other pages and components (auth modal and context, the blog editor, the contact action, markup and animation configuration) are UI markup or thin wrappers over hosted services and are not part of this model.
