# three.js example gallery — verified model of its sequential logic

The repository is a gallery of independent three.js demos with a small index
page, a Vite build configuration and a Python migration script. Most of each
demo is library calls, shader text, DOM wiring and trigonometric or random
geometry. This project models the sequential logic in between, one Dafny
module per source file, and proves what that logic promises:

- **Gallery:** the search and tag filter of the index page, its cards and
  tag buttons, the example table and `getExampleById`.
- **Tooling:**
  - the migration script's directory filters, its catalogue entries, the
    sorted configuration and its `main.js` → `index.js` rename;
  - the Vite entry map and `</head>` injection;
  - the demo loader's `getDemoPath`.
- **Layouts:**
  - the 3×3×3 counter machine of `cube`;
  - the two-strip triangulation of `photo`;
  - the chessboard of `godray`;
  - layer visibility and the tail buffer of `rotation`.
- **Per-frame state:**
  - `reel3d`'s hover buffers, pick decoding and `Boxes`;
  - `yanhua`'s particles and firework sweep;
  - `gltransition`'s hover transition;
  - `raycaster`'s highlight.
- **Helpers:**
  - `dissolve`'s cube URLs, uniform merge, shader patches and progress;
  - `geojson`'s coordinates, centres, the label scale and region building;
  - `earth-night`'s projection, transport lines, loading bar and buttons.

Modelling choices:

- **Numbers.** JavaScript numbers are Dafny `real`, without double or
  Float32 rounding. The transition progress of `gltransition` is an integer
  count of 0.02 steps. `Math.round` is round-half-up.
- **Randomness** is an input, constrained to [0, 1).
- **Objects the source updates in place** are classes with `modifies`
  clauses. These are the gallery page, `Wire`/`Boxes`, `Firework`/the
  firework list, the transition, the highlighter, the rotation logo, the
  dissolve demo and the earth page.
- **Buffers the source fills** (`Float32Array`s, the rotation tail
  attribute) are arrays.
- **Loops** stay loops, proved against specification functions.
- **Text.** `Text` holds the string operations of the runtimes: first-match
  `indexOf`/`replace`, `split`/`join` on one character, and
  `toLowerCase`/`str.title` restricted to ASCII letters.

## Model

| member | source | states |
|---|---|---|
| Text.IndexOf | main.js:33 | `indexOf`/`includes`: returns the first occurrence, and none exactly when the substring occurs nowhere |
| Text.ContainsIff | main.js:32-33 | `includes` holds iff the substring occurs at some index |
| Text.ContainsEmpty | main.js:24 | every string includes the empty string, so an empty search matches |
| Text.ReplaceFirst | vite.config.js:54-61 | `replace` with a string pattern changes only the first occurrence; a missing pattern leaves the string unchanged |
| Text.ToLower | main.js:24 | `toLowerCase` lowers each ASCII letter and keeps the length |
| Text.ToLowerIdempotent | main.js:32-33 | lowering twice equals lowering once |
| Text.Split | src/demos/common/demo-loader.js:33 | `split("/")` yields at least one piece and no piece contains the separator |
| Text.JoinSplit | src/demos/common/demo-loader.js:33 | joining the pieces of a split with the separator gives back the string |
| Text.SplitAround | src/demos/common/demo-loader.js:33 | a separator between two strings splits into the pieces of each side |
| Catalog.FindById | src/demos/index.js:35 | `find` returns the first index whose id matches, and none exactly when no entry matches |
| Catalog.GetExampleById | src/demos/index.js:34-35 | a result has the requested id and is the first such table entry; `null` iff no entry has that id |
| Catalog.TableShape | src/demos/index.js:12-27 | the table has two entries, `rotating-cube` then `animated-line`, with distinct ids; each thumbnail is `/src/demos/<id>/thumbnail.jpg` |
| Catalog.ThumbnailRule | src/demos/index.js:17 | entry k's thumbnail is built from its own id |
| Catalog.FirstThumbnail | src/demos/index.js:14-17 | the first entry's thumbnail follows the id rule |
| Catalog.SecondThumbnail | src/demos/index.js:21-24 | the second entry's thumbnail follows the id rule |
| Catalog.FindsEachEntry | src/demos/index.js:35 | looking up any table entry's id returns that entry |
| Gallery.FilterExamples | main.js:27-36 | the filtered list is no longer than the table and holds only table entries that pass both filters |
| Gallery.FilterIsOrderedSublist | main.js:27-36 | the filtered list keeps table order and holds each matching example as often as the table does, and nothing else |
| Gallery.KeepsEveryMatch | main.js:27-36 | every example passing both filters is rendered |
| Gallery.EmptySearchShowsAll | main.js:24-35 | with tag "all" and an empty search, the whole table is shown in order |
| Gallery.TagFilterIsExactMembership | main.js:29 | with an empty search and a tag other than "all", an example is shown iff that tag is one of its tags |
| Gallery.SearchIgnoresCase | main.js:24 | lowering the search term first does not change any match |
| Gallery.CreateExampleCard | main.js:56-75 | the card links to `./src/demos/<id>/`; it shows one tag span per tag in order, plus the title, description and thumbnail |
| Gallery.CardLinkNamesDemo | main.js:70 | opening a card's link, the demo loader reads back the card's own id |
| Gallery.GridFor | main.js:39-52 | no matches gives only the no-results message; otherwise one card per match, in order |
| Gallery.GalleryPage.constructor | main.js:10-16 | after `init`, the tag is "all" and the grid shows the filtered table |
| Gallery.GalleryPage.RenderExamples | main.js:19-53 | the clear-and-append loop leaves exactly the grid of the filtered table |
| Gallery.GalleryPage.OnSearchInput | main.js:80 | typing re-renders the grid for the new search value |
| Gallery.GalleryPage.ClickTag | main.js:84-94 | afterwards exactly the clicked button is active, `activeTag` is its tag and the grid is re-rendered |
| DemoLoader.GetDemoPath | src/demos/common/demo-loader.js:28-37 | the result never contains `/`; a path without `/` yields "" |
| DemoLoader.DirectoryUrl | src/demos/common/demo-loader.js:33-34 | `<prefix>/<name>/` yields `name`, because the trailing slash leaves an empty last piece |
| DemoLoader.FileUrl | src/demos/common/demo-loader.js:33-34 | `<prefix>/<name>/<file>` yields `name` |
| DemoLoader.LastTwoSegments | src/demos/common/demo-loader.js:33-34 | the result is the second-to-last segment |
| DemoLoader.ExampleDirectoryPath | src/demos/common/demo-loader.js:33-34 | `/x/rotating-cube/` yields `rotating-cube` |
| DemoLoader.ExampleFilePath | src/demos/common/demo-loader.js:33-34 | `/x/rotating-cube/index.html` yields `rotating-cube` |
| DemoLoader.RootPath | src/demos/common/demo-loader.js:34 | `/` yields "", since the second-to-last piece is empty |
| ViteConfig.GetDemoDirs | vite.config.js:6-14 | a missing directory gives `[]`; otherwise every name is exactly that of a directory entry |
| ViteConfig.DirectoryNames | vite.config.js:11-13 | the filter keeps exactly the names of directory entries |
| ViteConfig.GenerateInput | vite.config.js:17-28 | keys are `{"main"}` plus the demos; each demo maps to its `demos/<d>/index.html`; `main` maps to the root page unless a demo called `main` overwrote it |
| ViteConfig.TransformIndexHtml | vite.config.js:52-62 | the style block goes right before the first `</head>`, and removing it gives back the page; a page without `</head>` is unchanged |
| Migrate.FilterSourceDemos | scripts/migrate.py:15 | keeps exactly the directories whose name does not start with `.`, in order |
| Migrate.GetDemoDirs | scripts/migrate.py:11-15 | a missing source directory gives `[]`; otherwise the filtered listing in order |
| Migrate.ExistingDemoNames | scripts/migrate.py:22-26 | keeps exactly the names of visible directories with both `src` and `index.html` |
| Migrate.ScanExistingDemos | scripts/migrate.py:17-26 | a missing target directory gives `[]`; otherwise the names of the existing demos |
| Migrate.TitleFrom | scripts/migrate.py:99 | `str.title` on ASCII letters, from a given start state: upper after a non-letter, lower after a letter; other characters are unchanged |
| Migrate.Title | scripts/migrate.py:99 | `str.title`: a letter is upper-cased iff it starts the string or follows a non-letter, otherwise lower-cased |
| Migrate.GenerateExampleEntry | scripts/migrate.py:95-103 | the entry has `id` = name and tags `["demo"]`; the thumbnail is under `/src/demos/<name>/public/`; the description is `Three.js <name with spaces> demo`; the title is Python's `str.title` of the name with `-` replaced by spaces, so it has the name's length, no `-`, and a space wherever the name has `-` |
| Migrate.TitleCapitalisesWords | scripts/migrate.py:99 | a letter that opens the name or follows a `-` is upper-cased in the title; a letter that follows a letter is lower-cased |
| Migrate.LexLeTotal | scripts/migrate.py:110 | Python string order is total |
| Migrate.LexLeTransitive | scripts/migrate.py:110 | Python string order is transitive |
| Migrate.LexLeAntisymmetric | scripts/migrate.py:110 | Python string order is antisymmetric |
| Migrate.Insert | scripts/migrate.py:110 | insertion adds exactly the new name and keeps a sorted list sorted |
| Migrate.Sorted | scripts/migrate.py:110 | `sorted` returns a permutation of its input in ascending order |
| Migrate.GenerateDemosConfig | scripts/migrate.py:105-119 | one entry per scanned demo, in ascending id order; entry i is generated from the i-th sorted name; the ids are exactly the scanned names |
| Migrate.EntriesFor | scripts/migrate.py:110-112 | the append loop generates one entry per name, in order |
| Migrate.TargetFileName | scripts/migrate.py:70 | `main.js` becomes `index.js`; every other name is kept |
| Migrate.RenameCollisions | scripts/migrate.py:70 | two different files land on one target only when they are `main.js` and `index.js` |
| Migrate.CopyTargets | scripts/migrate.py:67-71 | each copied file keeps its position and no target is named `main.js` |
| Migrate.CollectMigrated | scripts/migrate.py:126-132 | the loop records the names `migrate_demo` returned, skipping `None` and the falsy empty string |
| Migrate.MigratedNamesMembers | scripts/migrate.py:129-132 | a name is recorded iff some call returned it and it is non-empty; there are never more names than demos |
| Migrate.MigratedNamesAppend | scripts/migrate.py:129-132 | recording two runs of results one after the other gives the two records concatenated |
| Cube.InitShape | src/demos/cube/src/index.js:102-162 | the counter loop produces 27 placements, the i-th being the i-th step of the counter machine |
| Cube.FillsGrid | src/demos/cube/src/index.js:122-134 | every cell of the 3×3×3 block (lx 0..2, ly 1..3, lz 1..3) is some cube's cell |
| Cube.DistinctPositions | src/demos/cube/src/index.js:131-134 | no two cubes share a position |
| Cube.Digits | src/demos/cube/src/index.js:122-129 | the counters advance as base-3 digits, `lx` fastest, then `ly`, then `lz` |
| Cube.GridBounds | src/demos/cube/src/index.js:122-143 | lx is in 0..2 and ly, lz in 1..3; the delay is ly × 0.05, in [0.05, 0.15] |
| Cube.NeighbourSpacing | src/demos/cube/src/index.js:132-134 | consecutive cubes in a row are 55 apart on x, with the same y and z |
| Photo.BuildGrid | src/demos/photo/src/index.js:70-85 | the nested loops build SH rows of SW vertices, each the grid vertex of its indices |
| Photo.VertexBounds | src/demos/photo/src/index.js:73-82 | uv lies in [0,1] and x, y in [−5,5]; z is +0.25 iff i is even and j is odd, −0.25 otherwise |
| Photo.GridCorners | src/demos/photo/src/index.js:73-80 | the first vertex has uv (0,0) at (−5,−5) and the last has uv (1,1) at (5,5) |
| Photo.StripLength | src/demos/photo/src/index.js:91-96 | strip k holds exactly 6·N vertices, N = ((SW−k)>>1)·(SH−1) |
| Photo.StripsShareTheCells | src/demos/photo/src/index.js:91-96 | N is 100·(SH−1) for k=0 and 99·(SH−1) for k=1; together these are all (SW−1)(SH−1) cells |
| Photo.EveryCellDrawn | src/demos/photo/src/index.js:95-120 | each cell (i,j) appears as six consecutive vertices in strip j mod 2 |
| Photo.CellInRows | src/demos/photo/src/index.js:95-96 | within strip k, the rows from i0 on contain cell (i,j) for every matching j |
| Photo.PutVertex | src/demos/photo/src/index.js:98-100 | `pos.set`/`uv.set` at n, then `++n`, extend both buffers by one vertex |
| Photo.EmitCell | src/demos/photo/src/index.js:97-120 | a cell writes its six vertices (i,j),(i,j+1),(i+1,j),(i,j+1),(i+1,j+1),(i+1,j) and advances n by 6 |
| Photo.EmitRow | src/demos/photo/src/index.js:96-121 | the inner loop writes every second cell of a row |
| Photo.EmitRows | src/demos/photo/src/index.js:95-122 | the outer loop writes the whole strip, ending at n = 6N |
| Photo.Triangulate | src/demos/photo/src/index.js:89-124 | the buffers have lengths 18N and 12N, n ends at 6N, and both are filled exactly with the strip |
| Reel3d.Clamp | src/demos/reel3d/index.js:984-986 | `clamp` lies in [lo, hi] when lo ≤ hi and keeps values already inside; `MathEx.clamp` is defined but not called anywhere in the demo, so nothing else rests on this |
| Reel3d.MixEnds | src/demos/reel3d/index.js:987-989 | `mix(x1,x2,0)=x1` and `mix(x1,x2,1)=x2`; for a in [0,1] the result lies between x1 and x2, in either order of the two; `MathEx.mix` is defined but not called anywhere in the demo (the `mix` and `clamp` in the shader strings are GLSL built-ins) |
| Reel3d.NextHover | src/demos/reel3d/index.js:594-610 | each entry changes by at most one frame time: the picked entry becomes exactly min(old+t, 0.3) (never above 0.3 nor above old+t, and equal to one of them), every other entry exactly max(old−t, 0) (never below 0 nor below old−t, and equal to one of them) |
| Reel3d.HoverStaysInRange | src/demos/reel3d/index.js:594-610 | with t ≥ 0 an entry in [0, 0.3] stays in [0, 0.3] |
| Reel3d.HoverSaturates | src/demos/reel3d/index.js:594-610 | the picked entry reaches 0.3, or an unpicked one 0, once t covers the distance |
| Reel3d.Uniforms.constructor | src/demos/reel3d/index.js:7-20 | time 0, rotate 0, pickedId −1 |
| Reel3d.Wire.constructor | src/demos/reel3d/index.js:260-310 | both hover buffers hold `instances` zeros; the uniforms start at 0, 0, −1 |
| Reel3d.Wire.Render | src/demos/reel3d/index.js:587-615 | time grows by t; every entry of both buffers steps identically by the hover rule; with t ≥ 0 the range invariant is kept |
| Reel3d.Boxes.constructor | src/demos/reel3d/index.js:618-626 | zero anchor, velocity and acceleration; 36 instances; nothing picked |
| Reel3d.Boxes.Rotate | src/demos/reel3d/index.js:634-637 | a zero delta changes nothing; otherwise only `anchor[0]` drops by 0.05·delta |
| Reel3d.Boxes.Picked | src/demos/reel3d/index.js:638-646 | both pickedId uniforms become id; the page is marked picked iff −1 < id < 36 |
| Reel3d.Boxes.Render | src/demos/reel3d/index.js:647-651 | both shader clocks grow by t and the hover buffers step as in `Wire.render` |
| Reel3d.OrIntoLowBits | src/demos/reel3d/index.js:1114 | or-ing a value into the free low bits of a shifted one is addition |
| Reel3d.DecodeIsPositional | src/demos/reel3d/index.js:1113-1115 | the decoded pick equals b0·65536 + b1·256 + b2 and lies in [0, 2^24) |
| Reel3d.DecodeEncode | src/demos/reel3d/index.js:1113-1115 | the bytes of any id below 2^24 decode back to that id |
| Reel3d.BackgroundPicksNothing | src/demos/reel3d/index.js:1101 | the white clear colour decodes to 16777215, which names no instance |
| Yanhua.Frame | src/demos/yanhua/src/index.js:99-113 | life never increases, and a dead particle is unchanged |
| Yanhua.LifeCountsDown | src/demos/yanhua/src/index.js:111 | after n ≤ 67 frames a fresh particle's life is 1 − 0.015·n |
| Yanhua.BurnsOutAfter67 | src/demos/yanhua/src/index.js:65-111 | a fresh particle is alive for frames 0..66, dead at 67, and unchanged from then on |
| Yanhua.InitParticles | src/demos/yanhua/src/index.js:40-66 | every particle starts at (x,y,z) with life 1, size 0.3 and red 1; green and blue are 0.2 × the roll; velocities are the given ones |
| Yanhua.SetTriple | src/demos/yanhua/src/index.js:54-56 | writes the three components at 3i and nothing else |
| Yanhua.Firework.constructor | src/demos/yanhua/src/index.js:29-94 | the particles are laid out as above, green and blue in [0, 0.2), and the firework is in the scene |
| Yanhua.Firework.Update | src/demos/yanhua/src/index.js:97-121 | returns true iff some particle had life > 0 on entry; every particle takes one frame step |
| Yanhua.Firework.StepParticle | src/demos/yanhua/src/index.js:103-112 | a live particle moves by 0.1·velocity, vy drops by 0.05, life by 0.015, and size becomes life·0.3; other particles are untouched |
| Yanhua.Firework.Dispose | src/demos/yanhua/src/index.js:124-128 | the firework leaves the scene |
| Yanhua.SpawnPointRange | src/demos/yanhua/src/index.js:139-140 | x lies in [−30, 30) and y in [−25, 25) |
| Yanhua.Show.constructor | src/demos/yanhua/src/index.js:132 | the firework list starts empty |
| Yanhua.Show.CreateRandomFirework | src/demos/yanhua/src/index.js:138-142 | appends one fresh firework at the spawn point with z = 0 and keeps the rest |
| Yanhua.Survivors | src/demos/yanhua/src/index.js:167-173 | the survivors are at most the list and come from it |
| Yanhua.DeadBackwards | src/demos/yanhua/src/index.js:167-173 | the disposed and the survivors together account for the whole list |
| Yanhua.SurvivorsSplit | src/demos/yanhua/src/index.js:167-173 | survivors and disposed split at any index |
| Yanhua.SweepStep | src/demos/yanhua/src/index.js:169-171 | splicing out a dead entry i of the partly swept list keeps the invariant one index lower |
| Yanhua.Sweep | src/demos/yanhua/src/index.js:167-173 | the backward loop keeps exactly the survivors in order and disposes the dead, last first |
| Yanhua.Show.RemoveBurntOut | src/demos/yanhua/src/index.js:167-173 | afterwards the list is exactly the survivors in order; each dead firework has left the scene; the others keep their scene state |
| Yanhua.Show.SweepOne | src/demos/yanhua/src/index.js:168-172 | one backward step keeps the sweep invariant |
| GlTransition.Frame | src/demos/gltransition/src/index.js:110-124 | a frame never changes the hover flag |
| GlTransition.FrameStaysInRange | src/demos/gltransition/src/index.js:111-122 | progress stays in [0, 1] (0..50 steps); it moves at most one step per frame, up when hovered and down otherwise |
| GlTransition.IdleFrames | src/demos/gltransition/src/index.js:110-123 | not transitioning, or already at the bound in the hover direction: the frame changes nothing |
| GlTransition.StopsAtEnds | src/demos/gltransition/src/index.js:113-121 | a moving frame clears `transitioning` iff it reaches the bound in the hover direction |
| GlTransition.EnterCompletes | src/demos/gltransition/src/index.js:111-116 | a hovered transition from s steps reaches 1, stopped, after exactly 50 − s frames |
| GlTransition.LeaveCompletes | src/demos/gltransition/src/index.js:117-122 | an unhovered transition from s steps reaches 0, stopped, after exactly s frames |
| GlTransition.Transition.constructor | src/demos/gltransition/src/index.js:18 | progress is 0, not transitioning, not hovered |
| GlTransition.Transition.Animate | src/demos/gltransition/src/index.js:107-127 | the state after a frame is the frame step of the old state, and the range invariant is kept |
| GlTransition.Transition.OnMouseEnter | src/demos/gltransition/src/index.js:130-133 | hovered and transitioning, with progress unchanged |
| GlTransition.Transition.OnMouseLeave | src/demos/gltransition/src/index.js:135-138 | not hovered but transitioning, with progress unchanged |
| Raycaster.MouseRange | src/demos/raycaster/src/index.js:36-39 | on-canvas positions map into [−1, 1]; x runs −1..1 left to right, and y is flipped (top +1) |
| Raycaster.Fraction | src/demos/raycaster/src/index.js:37-38 | a position within the canvas gives a fraction in [0, 1] |
| Raycaster.Mesh.constructor | src/demos/raycaster/src/index.js:27 | the material starts with the given colour |
| Raycaster.Highlighter.constructor | src/demos/raycaster/src/index.js:26-41 | nothing highlighted is remembered, and every mesh has the original colour |
| Raycaster.Highlighter.Animate | src/demos/raycaster/src/index.js:60-74 | after hits, `previousIntersected` is the first hit, coloured red; without hits it is null. A replaced or abandoned object is restored to the original colour. The same first hit again writes no colour |
| Raycaster.AtMostOneHighlighted | src/demos/raycaster/src/index.js:26-27 | any two red meshes are the same one, namely `previousIntersected` |
| Rotation.RoundBounds | src/demos/rotation/index.js:81 | rounding a value between two integers stays between them |
| Rotation.VLayers | src/demos/rotation/index.js:81 | `vLayers` lies in [8, 24], with 8 at pressure 0 and 24 at pressure 1 |
| Rotation.PlotRadius | src/demos/rotation/index.js:84 | `plotRadius` lies in [7, 25], with 25 at pressure 0 and 7 at pressure 1 |
| Rotation.Progress | src/demos/rotation/index.js:98 | min(progress/150, 1) lies in [0, 1] |
| Rotation.ProgressMonotone | src/demos/rotation/index.js:98 | the progress fraction never decreases as frames pass |
| Rotation.CameraRotation | src/demos/rotation/index.js:146-148 | the camera angle runs from 0.7 down to 0.5 |
| Rotation.PProximityRange | src/demos/rotation/index.js:126 | pProximity lies in (0, 1), is equal for v = 0 and 1, and falls as v grows past 1 |
| Rotation.LayersStackUp | src/demos/rotation/index.js:108 | layer heights strictly increase with the layer index, the top layer at yOffset + 1.4·containerH |
| Rotation.TailPairStraddles | src/demos/rotation/index.js:130-135 | the two vertices of a pair are exactly one tail weight apart and centred on `baseY` |
| Rotation.PairsPartitionBuffer | src/demos/rotation/index.js:134-135 | different pairs write disjoint indices, and each buffer index belongs to a pair |
| Rotation.WriteOrderCoversOnce | src/demos/rotation/index.js:125-136 | the writes from v upwards hit each index of [v, n) and [v+n, 2n) exactly once |
| Rotation.TailLoopWritesEachIndexOnce | src/demos/rotation/index.js:121-136 | the tail loop writes every index of [0, 2·pairs) exactly once |
| Rotation.Logo.constructor | src/demos/rotation/index.js:26-72 | 24 layers, all visible, counters at 0 |
| Rotation.Logo.WriteTail | src/demos/rotation/index.js:125-136 | every vertex of tail i gets its tail height, other tails are untouched, and the writes follow the covering order |
| Rotation.Logo.ShowLayer | src/demos/rotation/index.js:92-142 | sphere and tail visibility both become i < vLayers; a shown layer gets its scale and height; other layers are untouched |
| Rotation.Logo.AdvanceSpheres | src/demos/rotation/index.js:91-143 | one layer step keeps the sphere invariant |
| Rotation.Logo.AdvanceTails | src/demos/rotation/index.js:91-143 | one layer step keeps the tail invariant |
| Rotation.Logo.UpdateLayers | src/demos/rotation/index.js:91-143 | layer i is visible iff i < vLayers, with sphere and tail agreeing. Visible layers get their scale, height and tail; hidden ones keep theirs |
| Rotation.Logo.Animate | src/demos/rotation/index.js:77-157 | the layer update uses `vLayers` and `plotRadius` of the pressure; `animationProgress` and `frameCount` each grow by one |
| Dissolve.GenerateCubeUrls | src/demos/dissolve/index.js:93-102 | six URLs `prefix + face + postfix`, in the order posx, negx, posy, negy, posz, negz |
| Dissolve.CubeUrlsDistinct | src/demos/dissolve/index.js:93-102 | the six URLs are pairwise different, each carrying its face name after the prefix |
| Dissolve.CubeTexturePaths | src/demos/dissolve/index.js:104 | the paths are `./assets/posx.png` … `./assets/negz.png` |
| Dissolve.Uniform.constructor | src/demos/dissolve/index.js:136-152 | a uniform holds its given value |
| Dissolve.Shader.constructor | src/demos/dissolve/index.js:219 | a shader holds its given uniforms and sources |
| Dissolve.SetupUniforms | src/demos/dissolve/index.js:154-161 | the key loop leaves the shader's uniforms overridden by the given map |
| Dissolve.CopiedUniforms | src/demos/dissolve/index.js:154-161 | every given key maps to the given object, and other keys keep their old entries |
| Dissolve.PatchAfterShape | src/demos/dissolve/index.js:167-215 | a patch inserts its text right after the first marker and changes nothing else; without the marker the source is unchanged |
| Dissolve.PatchKeepsMarker | src/demos/dissolve/index.js:167-215 | after a patch the marker's first occurrence is where it was, followed by the inserted text |
| Dissolve.Patch | src/demos/dissolve/index.js:167-172 | one `shader.xxx = shader.xxx.replace(marker, marker + text)` step |
| Dissolve.SetupDissolveShader | src/demos/dissolve/index.js:164-216 | the vertex source gets its two patches and the fragment source its two, in the order written |
| Dissolve.UniformKeysListed | src/demos/dissolve/index.js:136-152 | the five uniform names list the data object's keys once each |
| Dissolve.NextProgress | src/demos/dissolve/index.js:246-247 | above 14 progress wraps to −7 before the +0.08 step; otherwise it just steps |
| Dissolve.ProgressCycle | src/demos/dissolve/index.js:246-247 | progress never exceeds 14.08 after a step, and the cycle [−7, 14.08] is preserved |
| Dissolve.DissolveDemo.constructor | src/demos/dissolve/index.js:136-152 | five uniforms with their initial values; `tweaks` mirrors −7 and has no `autoDissolve` |
| Dissolve.DissolveDemo.OnBeforeCompile | src/demos/dissolve/index.js:219-222 | the shader receives the demo's uniform objects, then the dissolve patches |
| Dissolve.DissolveDemo.OnSliderChange | src/demos/dissolve/index.js:236-240 | the slider value becomes the progress uniform |
| Dissolve.DissolveDemo.AnimateDissolve | src/demos/dissolve/index.js:243-249 | without `autoDissolve` nothing changes (and it is never set); with it, progress takes one wrapping step mirrored into the slider |
| GeoJson.ConvertCoordinates | src/demos/geojson/src/index.js:86-95 | the centre maps to (0, 0) |
| GeoJson.ConvertRoundTrip | src/demos/geojson/src/index.js:86-95 | the transform is a bijection: it and its inverse undo each other |
| GeoJson.ConvertKeepsOrder | src/demos/geojson/src/index.js:91-92 | east/west and north/south order are kept on x and y |
| GeoJson.CalculatePolygonCenter | src/demos/geojson/src/index.js:98-112 | the summing loop returns the centre: (0,0) for no points, else the mean of x and y |
| GeoJson.SumBounds | src/demos/geojson/src/index.js:103-106 | the sum of n values in [lo, hi] lies in [n·lo, n·hi] |
| GeoJson.CenterWithinBounds | src/demos/geojson/src/index.js:98-112 | the centre of points with x in [lo, hi] has x in [lo, hi] |
| GeoJson.CenterOfOnePoint | src/demos/geojson/src/index.js:98-112 | the centre of copies of one point is that point |
| GeoJson.LabelScale | src/demos/geojson/src/index.js:142 | the scale lies in [0.5, 1]: 1 up to distance 30, 0.5 from 60, 30/distance between |
| GeoJson.RingPoints | src/demos/geojson/src/index.js:202-206 | one point per coordinate |
| GeoJson.Outline | src/demos/geojson/src/index.js:216-219 | the outline of n points has n+1 points, the last equal to the first |
| GeoJson.Walls | src/demos/geojson/src/index.js:225-237 | one vertical line per point, from the point up to the ring height |
| GeoJson.RingHeight | src/demos/geojson/src/index.js:210 | each ring height lies in [1, 1.5) |
| GeoJson.MaxHeightIsMaximum | src/demos/geojson/src/index.js:198-211 | `maxHeight` is the largest ring height, attained by some ring, in [1, 1.5) |
| GeoJson.RegionOf | src/demos/geojson/src/index.js:196-250 | a feature fails iff one of its rings is empty; otherwise one mesh per ring |
| GeoJson.RegionShape | src/demos/geojson/src/index.js:210-247 | each mesh has the closed outline, one wall per point and a height in [1, 1.5); the label sits at z = maxHeight + 0.5, in [1.5, 2) |
| GeoJson.ConvertRing | src/demos/geojson/src/index.js:202-206 | the push loop converts each coordinate in order |
| GeoJson.AddRing | src/demos/geojson/src/index.js:201-238 | a ring adds its points and updates `maxHeight`; only a non-empty ring is outlined and meshed |
| GeoJson.AddRingAt | src/demos/geojson/src/index.js:201-238 | one ring step keeps the built-so-far invariant, or fails on an empty ring |
| GeoJson.AddPolygon | src/demos/geojson/src/index.js:200-239 | a polygon's ring loop builds all of its rings, or stops at an empty one |
| GeoJson.AddPolygonAt | src/demos/geojson/src/index.js:200-239 | one polygon step keeps the invariant over the flattened rings |
| GeoJson.BuildRegion | src/demos/geojson/src/index.js:197-247 | the nested loops build exactly the region of the feature's rings |
| GeoJson.BuiltRegion | src/demos/geojson/src/index.js:242-247 | once all rings are built, the label is at the points' centre and z = maxHeight + 0.5 |
| GeoJson.OnlyMultiPolygonsProduceRegions | src/demos/geojson/src/index.js:196 | there is one region per `MultiPolygon` feature, in order, named after it; other features produce nothing |
| GeoJson.FailureSticks | src/demos/geojson/src/index.js:195-251 | once a feature fails, loading the whole map fails |
| GeoJson.LoadMapData | src/demos/geojson/src/index.js:188-251 | the feature loop yields exactly the map's regions, or the failure |
| Godray.SquareSizeValue | src/demos/godray/src/main_new.js:42-44 | `squareSize` = 100/8 = 12.5 |
| Godray.PlaceSquares | src/demos/godray/src/main_new.js:66-86 | the nested loops place exactly the board's dark squares, row by row |
| Godray.CreateChessboard | src/demos/godray/src/main_new.js:41-87 | the board gets 32 squares |
| Godray.ThirtyTwoSquares | src/demos/godray/src/main_new.js:66-68 | 32 of the 64 cells are dark |
| Godray.BoardLength | src/demos/godray/src/main_new.js:66-68 | an even n×n board has n·n/2 dark squares |
| Godray.BoardIsDarkCells | src/demos/godray/src/main_new.js:66-80 | a square is placed iff its cell is on the board with (i+j) odd, at that cell's centre |
| Godray.CentreRange | src/demos/godray/src/main_new.js:76-80 | square centres lie in [−43.75, 43.75] |
| Godray.CentreSymmetric | src/demos/godray/src/main_new.js:76-80 | cell 7−i has the negated centre of cell i |
| Godray.PawnRanges | src/demos/godray/src/main_new.js:182-205 | white pawns lie in [−25, 25) on x and z, black pawns in [12.5, 62.5) |
| Godray.BlackPawnsCanLeaveTheBoard | src/demos/godray/src/main_new.js:197-201 | a black pawn lies off the board's edge at 50 iff its roll exceeds 0.75 |
| Godray.AddChessPieces | src/demos/godray/src/main_new.js:159-206 | three white and three black pawns, each placed from its rolls |
| EarthNight.ProjectXRange | src/demos/earth-night/src/index.js:158 | x = ((lng+180)/360)·width lies in [0, width] |
| EarthNight.ProjectYRange | src/demos/earth-night/src/index.js:159 | y = ((90−lat)/180)·height lies in [0, height] |
| EarthNight.ProjectionRange | src/demos/earth-night/src/index.js:158-159 | a valid city projects onto the canvas |
| EarthNight.ProjectionEdges | src/demos/earth-night/src/index.js:158-159 | lat 90 maps to y = 0 and −90 to the bottom; lng −180 maps to x = 0 and 180 to the right edge |
| EarthNight.ProjectionInvertible | src/demos/earth-night/src/index.js:179-180 | different cities project to different canvas points |
| EarthNight.MinorCitiesInRange | src/demos/earth-night/src/index.js:150-151 | random cities have lat in [−90, 90) and lng in [−180, 180), and always project onto the canvas |
| EarthNight.GenerateMinorCities | src/demos/earth-night/src/index.js:148-153 | 1000 cities, each drawn from its rolls |
| EarthNight.TransportLines | src/demos/earth-night/src/index.js:205-220 | the loop draws exactly the specified lines |
| EarthNight.LinesJoinNeighbours | src/demos/earth-night/src/index.js:205-209 | each line joins city i to i+1 < length (no wrap-around) and has a roll ≤ 0.5 |
| EarthNight.NeighboursWithLowRollAreJoined | src/demos/earth-night/src/index.js:205-209 | every neighbour pair with a roll ≤ 0.5 gets a line |
| EarthNight.TransportLinesChosen | src/demos/earth-night/src/index.js:205-220 | a line starts at city k iff k < length−1 and its roll is ≤ 0.5 |
| EarthNight.NextLoadingProgress | src/demos/earth-night/src/index.js:310-311 | progress grows by the roll's step and is capped at 100 |
| EarthNight.LoadingNeverGoesBack | src/demos/earth-night/src/index.js:309-326 | over any number of updates progress never decreases or exceeds 100, and stays at 100 once there |
| EarthNight.EarthPage.constructor | src/demos/earth-night/src/index.js:305-351 | progress 0, rotating with auto-rotate on, atmosphere shown, bloom not enhanced at 1.5 |
| EarthNight.EarthPage.UpdateLoadingProgress | src/demos/earth-night/src/index.js:309-324 | progress takes one capped step; another update is scheduled iff progress is below 100 |
| EarthNight.EarthPage.ClickRotate | src/demos/earth-night/src/index.js:331-335 | toggles `isRotating`, keeps `autoRotate` equal to it and sets the caption to match |
| EarthNight.EarthPage.ClickAtmosphere | src/demos/earth-night/src/index.js:338-341 | toggles the atmosphere and sets the caption to match |
| EarthNight.EarthPage.ClickBloom | src/demos/earth-night/src/index.js:352-356 | toggles the enhancement: strength 3.0 when enhanced, 1.5 otherwise, with the caption to match |

The specification functions below compute what the source computes and carry no
contract of their own; the rows named after each state their properties.

- `Raycaster.MouseX`, `Raycaster.MouseY` (src/demos/raycaster/src/index.js:37-38): covered by `Raycaster.MouseRange`.
- `Cube.PlacementOf` (src/demos/cube/src/index.js:122-143): covered by `Cube.InitShape`, `Cube.Digits` and `Cube.GridBounds`.
- `Photo.VertexAt` (src/demos/photo/src/index.js:73-82): covered by `Photo.VertexBounds` and `Photo.BuildGrid`.
- `Yanhua.Step` (src/demos/yanhua/src/index.js:103-112): covered by `Yanhua.Firework.StepParticle` and `Yanhua.Frame`.
- `Yanhua.SpawnPoint` (src/demos/yanhua/src/index.js:139-140): covered by `Yanhua.SpawnPointRange`.
- `Migrate.Spaced` (scripts/migrate.py:99-100): covered by `Migrate.GenerateExampleEntry`.
- `Migrate.MigratedNames` (scripts/migrate.py:129-132): covered by `Migrate.CollectMigrated` and `Migrate.MigratedNamesMembers`.
- `GeoJson.Center` (src/demos/geojson/src/index.js:98-112): covered by `GeoJson.CalculatePolygonCenter` and `GeoJson.CenterWithinBounds`.
- `GeoJson.MapRegions` (src/demos/geojson/src/index.js:195-251): covered by `GeoJson.LoadMapData` and `GeoJson.OnlyMultiPolygonsProduceRegions`.
- `EarthNight.MinorCity` (src/demos/earth-night/src/index.js:150-151): covered by `EarthNight.MinorCitiesInRange`.

## Left out

- All three.js, postprocessing, gsap and lil-gui/tweakpane calls are left out of every module. This covers scene, camera, renderer, material, geometry and light construction, every render call, shader compilation and event wiring. They are foreign library code.
- GLSL sources are modelled only as text to be patched (`dissolve`) or not at all (`reel3d`, `gltransition`, glow shaders). They run on the GPU.
- Trigonometry, square roots and easing curves are left out: the sphere angles and tail x/z coordinates of `rotation`, the yanhua spherical velocities, `Power4.easeInOut`, `Math.tan` for the layer scale and the camera's `sin`/`cos`. The model takes their results as parameters (velocities, eased values, layer scales), because Dafny reals have no transcendental functions.
- The rounding of doubles and `Float32Array` entries is left out; numbers are exact reals. A consequence: `Yanhua.BurnsOutAfter67` is proved for exact arithmetic.
- `Math.random()` is a parameter in [0, 1) at each use: spawn points, colours, ring heights, pawns, cities, transport-line rolls and loading steps.
- Network, file and timer I/O is left out: `fetch("/map.json")`, the texture/GLTF loaders, the `setTimeout` chain of the loading bar (modelled as a returned "schedule again" flag) and the debounced resize in `reel3d`. Foreign code and time are outside the model.
- The migration script's file operations are left out: `migrate_demo`'s copies and writes, `makedirs`, and the JSON dump of the configuration. Directory listings are abstract sequences of entries, and `migrate_demo`'s result is an input to the collecting loop.
- Vite's `resolve` is modelled as string concatenation with `/`. The real one normalises paths.
- `ToLower`, `Title`: only ASCII letters change case. JavaScript's and Python's full Unicode case tables are not modelled.
- Text.ReplaceFirst: the `$` replacement patterns of `String.prototype.replace` are not modelled. None of the inserted texts contains `$`.
- Yanhua.Show.RemoveBurntOut: `update()` is not called inside the sweep; instead, the alive flag each firework's `Update` returns is passed in. Calling it on each object inside the loop would need a frame per object. `Firework.Update` itself is modelled and proved separately.
- The `force3` spring (`Boxes.updateRotation`) is left out: it uses vector normalisation.
- The rotation tail buffer keeps only the y coordinate of each vertex.
- The pair count of the tail, 46, follows from three.js's `PlaneGeometry(0, 0, 45, 1)` having 46·2 vertices; it is a constant of the model.
- GeoJSON polygons are nested sequences of coordinates.
- An empty ring makes `setFromPoints` receive `undefined`, which throws. It is modelled as a failure result for the whole load; the meshes already added to the scene before the throw are not modelled.
- The `snoise` GLSL text of `dissolve` is a parameter: it is imported from another file.
- The earth-night star field, village dots, glow gradients and canvas drawing calls are left out; only the city projection and the transport-line choice are modelled.
- The label's DOM styling in `geojson` is left out; only the scale it computes is modelled.
- `gltransition`'s `transitionToNextImage`, its resize handler (which writes a `uniforms.ratio` that does not exist) and `loadRandomTexture()` (called with no argument) are texture loading on broken paths.
- The stray numeric token after the doc comment at src/demos/common/demo-loader.js:27 only declares an unused class field; the loader's constructor and `initThreeJS` are three.js set-up.
