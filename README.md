# Collision core of a small WebGL renderer, in Dafny

This project models the parts of the renderer that decide something, as
opposed to drawing it:

- **GJK** (`src/gjk.ts`): the Gilbert-Johnson-Keerthi boolean intersection
  test on two convex point sets.
  - `farthestPoint` and `supportPoint` find a Minkowski-difference support point.
  - `handleSimplex` is the line / triangle / tetrahedron state machine. It
    rewrites the simplex array and the search direction in place.
  - `gjk3d` is the driver. It has a 64-iteration cap and returns false as soon
    as a support point lies behind the origin.
- **The collision sweep** (`CollisionSystem.update` in `src/renderer.ts` and its
  compiled twin `dist/renderer.js`).
  - It clears the collision list, then tests every pair i < j of entities with
    GJK on their world-space vertices, recording `{a, b}` on contact.
  - It reads vertices through the `Entity.geometry` getter, which throws when an
    entity has no mesh or no geometry.
  - `Scene.add` is modelled from the same files.
- **Helpers from `src/utils.ts`**:
  - `transformVertices` maps local vertices to world space.
  - `rayTriangleIntersection` is the ray/triangle hit test.
  - `remap` is an affine map of ranges.
  - The row-flipping copy loop inside `saveFrame` turns bottom-up rows into
    top-down rows.
- **The Wavefront OBJ reader** (`src/parser.ts`):
  - `parseObj` classifies lines by prefix, then resolves each face token `v/t/n`
    against the vertex, texture and normal lists and flattens the result.
  - `extractNumsFromObjLine` reads the numbers of one `v`, `vn` or `vt` line.

Arithmetic is over exact reals.

Where the source updates state in place, the model is imperative:
- The GJK simplex and direction are the two fields of class `Gjk.Simplex`.
- `Scene` and `CollisionSystem` are classes whose methods reassign their
  `entities` and `collisions` fields.
- The pixel flip writes into an `array<bv8>`.
- The loops of `farthestPoint`, `gjk3d`, `transformVertices`, `update` and
  `parseObj` are `while`/`for` loops with invariants.

Each such method is proved equal to a pure reference function, and the
properties are proved as lemmas about those functions:
- `Evolve` is the reference for `handleSimplex`.
- `GjkOutcome` and `GjkSimplex` are the references for `gjk3d`'s answer and final simplex.
- `Sweep` is the reference for `update`: the outcome of visiting a list of
  index pairs.
- `Transformed` is the reference for `transformVertices`.
- `Records` and `Assemble` are the references for the two passes of `parseObj`.

Files:
- `wrappers.dfy`: `Option`.
- `vectors.dfy`: the `vec3` algebra.
- `gjk.dfy`, `utils.dfy`, `renderer.dfy`, `parser.dfy`: one module per source file.

## Model

| member | source | states |
|---|---|---|
| Vectors.CrossPerpendicular | src/gjk.ts:213-216 | `cross(a, b)` is perpendicular to both a and b |
| Gjk.TripleCross | src/gjk.ts:172-174 | `tripleCross(a, b, c)` is `cross(cross(a, b), c)`. The result is perpendicular to c and to a x b |
| Gjk.TripleCrossTowards | src/gjk.ts:172-174 | `tripleCross(e, v, e)` is perpendicular to e. Its dot product with v is the squared length of e x v, so it never points away from v |
| Gjk.FirstFarthest | src/gjk.ts:192-204 | the candidate index the scan holds after n triples is one of those n triples |
| Gjk.FirstFarthestIsFirstMaximum | src/gjk.ts:192-204 | the scan's candidate has the largest dot product with d among the triples scanned. Every earlier triple is strictly smaller, so ties keep the first maximum (strict `>`) |
| Gjk.FirstFarthestScaleFree | src/gjk.ts:198 | multiplying d by a positive factor does not change which triple the scan picks |
| Gjk.ScaledComparison | src/gjk.ts:198 | a positive factor on d preserves both the strict comparison of the scan and the sign test `dot(A, d) < 0` of the driver |
| Gjk.Farthest | src/gjk.ts:188-207 | the reference for `farthestPoint`: the triple at the scan's first-maximum index. It is one of the set's triples, and no triple lies farther along d |
| Gjk.FarthestScaleFree | src/gjk.ts:188-207 | the farthest point along d equals the farthest point along any positive multiple of d |
| Gjk.FarthestPoint | src/gjk.ts:188-207 | the loop returns the scan's first maximum: one of the set's triples, whose dot product with d is at least that of every triple |
| Gjk.Support | src/gjk.ts:176-186 | the reference for `supportPoint`: the farthest triple of s1 along d minus the farthest triple of s2 along -d. It is a Minkowski-difference point |
| Gjk.SupportIsMaximal | src/gjk.ts:176-186 | the support point is a difference of a triple of s1 and a triple of s2. No such difference lies farther along d |
| Gjk.SupportPoint | src/gjk.ts:176-186 | returns `farthestPoint(s1, d) - farthestPoint(s2, -d)`, a Minkowski-difference point |
| Gjk.SupportScaleFree | src/gjk.ts:176-186 | the support point does not change when d is multiplied by a positive factor |
| Gjk.SeparatedWhenSupportBehind | src/gjk.ts:18-22 | when `dot(A, d) < 0`, every point of s1 lies strictly below every point of s2 along d, so the early `return false` is a correct answer |
| Gjk.EdgeOrVertex | src/gjk.ts:78-87 | the `STAR` rule: keep [A, B] with `d = (AB x AO) x AB` when `dot(AB, AO) > 0`, otherwise keep [A] with `d = AO`. It never reports containment, A comes first, and d does not point away from the origin as seen from A |
| Gjk.EvolveLine | src/gjk.ts:42-60 | the line case, with A = points[1] the newest point, is the `STAR` rule on A and B: no containment, A first, d not pointing away from the origin |
| Gjk.EvolveTriangle | src/gjk.ts:63-111 | the triangle case, with A = points[2]: the nested tests of lines 89-108 in order. It never reports containment and keeps 1 to 3 of the input points |
| Gjk.Orient | src/gjk.ts:129 | a face normal, negated when it points towards the opposite vertex, ends up as plus or minus the normal with a non-positive dot product with the opposite edge |
| Gjk.EvolveTetrahedron | src/gjk.ts:114-156 | the tetrahedron case, with A = points[3]: faces ABC, ACD and ADB in that order, each normal oriented away from the opposite vertex. Containment exactly when no face faces the origin, with simplex and d untouched. Otherwise three points remain, A first |
| Gjk.Evolve | src/gjk.ts:34-165 | the reference for one `handleSimplex` call, dispatching on the length. Containment needs 4 points. Every length other than 2, 3 and 4 only logs, returns false and leaves simplex and d as they were |
| Gjk.LineCase | src/gjk.ts:42-60 | with A the newest point: if `dot(AB, AO) > 0` the simplex becomes [A, B] with `d = (AB x AO) x AB`, perpendicular to AB and not pointing away from the origin. Otherwise it becomes [A] with `d = AO`. The result is false in both cases |
| Gjk.TriangleCase | src/gjk.ts:63-111 | returns false. When the origin is outside AC and `dot(AC, AO) > 0`, all three points stay in place and only d turns. Otherwise the simplex becomes [A], [A, B], [A, B, C] with `d = ABC`, or [A, C, B] with `d = -ABC`. In every case d does not point away from the origin as seen from A |
| Gjk.TetrahedronCase | src/gjk.ts:114-156 | each face normal ABC, ACD, ADB points away from its opposite vertex. The result is true exactly when none faces the origin, and then the simplex and d are untouched. Otherwise the simplex becomes the first facing face in the order ABC, ACD, ADB, with d set to that normal |
| Gjk.EvolveShape | src/gjk.ts:34-165 | true is only returned for a tetrahedron, which is left as it was. Otherwise 1 to 3 points remain, all taken from the input, with the newest first except in the kept triangle |
| Gjk.EvolveTowardsOrigin | src/gjk.ts:34-165 | every step that does not report containment leaves d with a non-negative dot product with the direction from the newest point to the origin |
| Gjk.EvolveIgnoresDirection | src/gjk.ts:42-111 | the line and triangle cases do not read the incoming direction |
| Gjk.Simplex.constructor | src/gjk.ts:11-15 | the simplex starts as [S] with the given first direction |
| Gjk.Simplex.Push | src/gjk.ts:24 | `points.push(A)` appends A and leaves d alone |
| Gjk.Simplex.SetArr | src/gjk.ts:167-170 | after the shift loop and the push, the array holds exactly the arguments, in order |
| Gjk.Simplex.ToEdgeOrVertex | src/gjk.ts:78-87 | the shared `STAR` branch leaves the simplex and direction given by the edge-or-vertex rule |
| Gjk.Simplex.HandleSimplex | src/gjk.ts:34-165 | the new simplex, direction and result are those of the reference step on the old simplex and direction. Lengths other than 2, 3 and 4 leave both untouched and return false |
| Gjk.Run | src/gjk.ts:17-31 | the reference for the loop from iteration i on: stop with false after 64 iterations, otherwise take one turn (`RunTurn`). A true answer comes before the cap |
| Gjk.RunTurn | src/gjk.ts:18-29 | one turn of the loop: false on a support point behind the origin, otherwise push it and evolve; true on containment, else the loop goes on from the next iteration |
| Gjk.RunSimplex | src/gjk.ts:17-31 | the simplex the loop holds when it stops, turn by turn as `Run` decides: the current one at the cap or at the early exit, the tetrahedron on containment |
| Gjk.TurnSimplex | src/gjk.ts:18-29 | the simplex after one turn, following `RunTurn` |
| Gjk.GjkOutcome | src/gjk.ts:5-32 | the reference for `gjk3d`: false for a length that is not a multiple of 3, and false for an empty point list (the 64-turn NaN run), otherwise the run from the simplex [S] with direction -S scaled by the normalising factor |
| Gjk.GjkSimplex | src/gjk.ts:5-32 | the simplex `gjk3d` holds when it returns; empty when it returns before building one |
| Gjk.Gjk3d | src/gjk.ts:5-32 | returns the reference outcome of the 64-iteration driver, and (as a ghost result) the simplex it stops with. Every point of that simplex is a Minkowski-difference point, and on a true answer it is a tetrahedron that passes the face test. A length that is not a multiple of 3, or an empty list, gives false |
| Gjk.RunAdvance | src/gjk.ts:17-29 | one loop turn: the simplex keeps 1 to 3 points between turns (so 2 to 4 reach `handleSimplex`, and the error branches are unreachable), and the remaining run decides the answer |
| Gjk.GjkScaleFree | src/gjk.ts:15 | the answer of `gjk3d` does not depend on the positive factor standing for `vec3.normalize` |
| Gjk.RunScaleFree | src/gjk.ts:15-29 | from a one-point simplex, scaling the direction by a positive factor does not change the run |
| Gjk.OneTurn | src/gjk.ts:18-29 | one turn past the early exit: it keeps Minkowski-difference points; on containment the loop answers true with the tetrahedron, which passes the face test; otherwise 1 to 3 points go on and the rest of the run decides the answer and the final simplex |
| Gjk.RunStops | src/gjk.ts:17-22 | at the cap or on a support point behind the origin the loop answers false and keeps its simplex |
| Gjk.EvolveKeepsMinkowski | src/gjk.ts:24-25 | pushing the support point and evolving keeps every simplex point a Minkowski-difference point; containment leaves a tetrahedron that passes the face test |
| Gjk.RunKeepsMinkowski | src/gjk.ts:17-31 | from a simplex of Minkowski-difference points, the simplex the loop stops with consists of Minkowski-difference points |
| Gjk.RunTrueMeansEnclosing | src/gjk.ts:17-31 | when the loop answers true, the simplex it stops with is a tetrahedron that passes the face test: no face through the newest point faces the origin |
| Gjk.GjkTrueMeansEnclosing | src/gjk.ts:5-32 | the simplex `gjk3d` stops with consists of Minkowski-difference points, and when the answer is true it is a tetrahedron that passes the face test |
| Utils.TransformPoint | src/utils.ts:17-24 | one iteration: (x, y, z, 1) through the column-major matrix, first three components kept (`vec4.transformMat4` with w = 1). The origin goes to the translation column |
| Utils.Transformed | src/utils.ts:10-28 | the world-space list has the length of the input list |
| Utils.TransformedAt | src/utils.ts:16-25 | output triple k is the first three components of M (x_k, y_k, z_k, 1), column-major, and depends only on input triple k |
| Utils.TransformedIdentity | src/utils.ts:16-25 | the identity matrix leaves a vertex list unchanged |
| Utils.TransformedByTriples | src/utils.ts:16-25 | a list of the right length whose every triple is the image of the matching input triple is the transformed list |
| Utils.TransformVertices | src/utils.ts:10-28 | the stride-3 loop returns the transformed list, of length 3k for an input of length 3k |
| Utils.TransformCoord | src/utils.ts:77-79 | `vec3.transformMat4`: (x, y, z, 1) through the matrix, divided by w, with a zero w read as 1. For an affine matrix it equals the w = 1 transform of `transformVertices` |
| Utils.RayTriangleIntersection | src/utils.ts:61-110 | no hit unless the array has 9 numbers, and no hit for a ray parallel to the plane (`abs(dot(D, N)) < 1e-6`). A hit reports N = AB x AC and t >= 0, and its point O + tD lies on the plane and on the inner side of all three edges |
| Utils.HitTriangle | src/utils.ts:81-109 | the same guarantees, for the transformed corners A, B, C |
| Utils.HitOnPlane | src/utils.ts:90-94 | `t = dot(A - O, N) / dot(D, N)` puts O + tD on the plane through A with normal N |
| Utils.PlaneParameter | src/utils.ts:90 | on a non-parallel ray, the only parameter putting O + tD on the plane is that quotient |
| Utils.HitTriangleFinds | src/utils.ts:81-109 | converse: a non-parallel ray that meets the plane at t >= 0 inside the three edges gets exactly that hit |
| Utils.RayTriangleFindsHit | src/utils.ts:61-110 | the same converse for a nine-number triangle through the transform |
| Utils.Remap | src/utils.ts:137-146 | inMin maps to outMin and inMax maps to outMax |
| Utils.RemapRoundTrip | src/utils.ts:137-146 | remapping back with the ranges swapped recovers the input |
| Utils.RemapAffine | src/utils.ts:137-146 | remap preserves affine combinations, so it is the affine map fixed by its two end points |
| Utils.PixelBefore | src/utils.ts:222-223 | offsets are row-major: an earlier pixel's four bytes end before a later one's start |
| Utils.PixelInside | src/utils.ts:222-224 | every pixel's four bytes lie inside the w * h * 4 byte image |
| Utils.PixelsDisjoint | src/utils.ts:223-224 | distinct pixels occupy disjoint bytes, so each destination pixel is written by one iteration only |
| Utils.OtherPixelsKept | src/utils.ts:224 | rewriting one pixel's four bytes leaves every other pixel as it was |
| Utils.CopyPixel | src/utils.ts:222-224 | destination pixel (x, y) receives the bytes of source pixel (x, h - 1 - y). Every other destination pixel is unchanged |
| Utils.FlipRows | src/utils.ts:219-226 | after both loops, every destination pixel (x, y) holds source pixel (x, h - 1 - y) |
| ObjParser.Split | src/parser.ts:16 | `split` on a one-character separator always yields at least one piece |
| ObjParser.SplitPiecesFree | src/parser.ts:16 | no piece holds the separator |
| ObjParser.JoinSplit | src/parser.ts:16 | joining the pieces with the separator gives back the text |
| ObjParser.SplitJoin | src/parser.ts:84 | splitting joined, separator-free pieces gives back the pieces |
| ObjParser.TrimStart | src/parser.ts:84 | the result is a suffix of the text that does not start with white space |
| ObjParser.TrimStartCutsSpaces | src/parser.ts:84 | everything cut from the front is white space |
| ObjParser.TrimEnd | src/parser.ts:84 | the result is a prefix of the text that does not end with white space |
| ObjParser.TrimEndCutsSpaces | src/parser.ts:84 | everything cut from the back is white space |
| ObjParser.Trim | src/parser.ts:84 | `trim` leaves no white space at either end |
| ObjParser.TrimUnchanged | src/parser.ts:84 | text without white space at either end is its own trim |
| ObjParser.TrimStartPadding | src/parser.ts:84 | leading white space is cut up to the first other character |
| ObjParser.TrimEndPadding | src/parser.ts:84 | trailing white space is cut back to the last other character |
| ObjParser.TrimPadding | src/parser.ts:84 | `trim` gives back text padded with white space on both sides |
| ObjParser.ExtractNums | src/parser.ts:83-96 | `vec3` gives three numbers and `vec2` gives two |
| ObjParser.ExtractNumsOfFields | src/parser.ts:83-96 | for a line `kw t0 t1 ...` with single spaces between the fields and any white space before and after, the numbers are parseFloat of t0, t1, ... in order, and NaN (`undefined`) past the last token |
| ObjParser.FaceTokens | src/parser.ts:32 | `line.split("").splice(2).join("").split(" ")`: the line without its first two characters, split on single spaces. The tokens hold no space and join back to that rest of the line |
| ObjParser.VertexEntry | src/parser.ts:19-21 | a line adds a vertex exactly when it starts with `v `, and that vertex is the line's triple of numbers |
| ObjParser.NormalEntry | src/parser.ts:23-25 | a line adds a normal exactly when it starts with `vn`, and that normal is the line's triple of numbers |
| ObjParser.TextureEntry | src/parser.ts:27-29 | a line adds a texture coordinate exactly when it starts with `vt`, and that coordinate is the line's pair of numbers |
| ObjParser.FaceEntry | src/parser.ts:31-34 | a line adds one face exactly when it starts with `f ` |
| ObjParser.Classify | src/parser.ts:19-34 | one first-loop iteration: the four independent `if` tests, in order. The lists only grow; each list grows by one exactly when the line starts with its prefix (`v `, `vn`, `vt`, `f `); at most one list of numbers grows, since those prefixes exclude each other |
| ObjParser.Records | src/parser.ts:18-35 | the collected vertices and normals are triples and the texture coordinates pairs |
| ObjParser.ClassifyMerge | src/parser.ts:18-35 | classifying a line after earlier records only appends to them |
| ObjParser.RecordsAppend | src/parser.ts:18-35 | lines are classified independently: the records of a + b are those of a followed by those of b |
| ObjParser.IgnoredLineRecords | src/parser.ts:18-35 | a line starting with none of `v `, `vn`, `vt`, `f ` yields no record |
| ObjParser.LineIgnored | src/parser.ts:18-35 | inserting such a line anywhere in the text changes nothing |
| ObjParser.RecordsStep | src/parser.ts:18-34 | loop-step lemma: one loop iteration applies the four independent prefix tests to the next line |
| ObjParser.LinesWith | src/parser.ts:18-35 | the lines that pass one `startsWith` test, in order: no more than there are lines, and each starts with the prefix |
| ObjParser.NumsOf | src/parser.ts:20-28 | `extractNumsFromObjLine` applied to each line in order: one entry per line, each of the kind's width |
| ObjParser.TokensOfLines | src/parser.ts:31-33 | the face tokens of each line in order, one list per line |
| ObjParser.NumsOfSnoc | src/parser.ts:20-28 | reading one more line appends its numbers |
| ObjParser.TokensOfSnoc | src/parser.ts:31-33 | reading one more face line appends its tokens |
| ObjParser.LinesWithSnoc | src/parser.ts:18-19 | one more line joins the filtered lines exactly when it starts with the prefix |
| ObjParser.RecordsVertices | src/parser.ts:18-21 | the vertices are the numbers of the `v ` lines, in line order |
| ObjParser.RecordsNormals | src/parser.ts:18-25 | the normals are the numbers of the `vn` lines, in line order |
| ObjParser.RecordsTextures | src/parser.ts:18-29 | the texture coordinates are the numbers of the `vt` lines, in line order |
| ObjParser.RecordsFaces | src/parser.ts:18-34 | the faces are the tokens of the `f ` lines, in line order |
| ObjParser.RecordsOfLines | src/parser.ts:18-35 | the first loop's four lists are exactly, in order, the numbers of the `v `, `vn` and `vt` lines and the tokens of the `f ` lines |
| ObjParser.CollectRecords | src/parser.ts:16-35 | the first loop collects exactly the records of the lines |
| ObjParser.Lookup | src/parser.ts:50-53 | `list[parseInt(part) - 1]` is defined exactly when parseInt gives an index from 1 to the list length, and is then that entry |
| ObjParser.ResolveCorner | src/parser.ts:50-57 | one face token: split on `/`, look up each part. Fewer than three parts or an index outside a list is `undefined`, and the spread throws. A resolved corner takes its numbers from the three lists |
| ObjParser.ResolveIndices | src/parser.ts:50-53 | a token `x/y/z` resolves to vertex x - 1, texture y - 1 and normal z - 1 |
| ObjParser.ResolveMissingPart | src/parser.ts:50-57 | a token with fewer than three slash-separated parts makes `parseObj` throw |
| ObjParser.FlattenAppend | src/parser.ts:48-49 | the tokens are visited face by face, then token by token |
| ObjParser.Assemble | src/parser.ts:48-59 | the reference for the second loop: the arrays after the given tokens, with each token's numbers appended, or a throw at the first token that does not resolve |
| ObjParser.AssembleStaysThrown | src/parser.ts:55-57 | once a spread of `undefined` has thrown, later tokens change nothing |
| ObjParser.CornerWidths | src/parser.ts:55-57 | a resolved token brings 3 vertex numbers, 2 texture numbers and 3 normal numbers |
| ObjParser.AssembleSucceeds | src/parser.ts:48-59 | the second loop completes exactly when every token resolves |
| ObjParser.AssembleLayout | src/parser.ts:48-59 | complete output has 3F, 2F and 3F numbers for F tokens. Token k owns positions 3k, 2k and 3k of the arrays, in token order |
| ObjParser.AssembleStep | src/parser.ts:49-58 | loop-step lemma: one inner iteration appends the numbers of the next token or throws |
| ObjParser.FaceDone | src/parser.ts:48-59 | after a face, the tokens processed are those of the faces so far |
| ObjParser.FaceThrown | src/parser.ts:49-58 | a throw inside a face leaves every face up to it thrown |
| ObjParser.PrefixThrown | src/parser.ts:48-59 | a throw among the first faces is the result of the whole pass |
| ObjParser.ThrownAt | src/parser.ts:48-59 | a throw at any token is the result of the whole pass |
| ObjParser.AssembleFaces | src/parser.ts:43-63 | the second loop returns the assembled arrays of all face tokens, or throws where the first bad token is |
| ObjParser.ParsedObj | src/parser.ts:9-66 | the reference for `parseObj`: the second pass over the face tokens of the first pass, resolved against its lists |
| ObjParser.ParsedObjLayout | src/parser.ts:9-66 | parsing succeeds exactly when every face token resolves. It then yields 3F vertex, 2F texture and 3F normal numbers, token by token in face order |
| ObjParser.ParseObj | src/parser.ts:9-66 | `parseObj` returns the arrays the two passes define, or throws |
| Renderer.GeometryOf | src/renderer.ts:118-124 | the getter throws exactly when there is no mesh or no geometry, and otherwise returns the mesh's geometry. The compiled twin at dist/renderer.js:70-75 is the same code |
| Renderer.Collide | src/renderer.ts:178-181 | the verdict on two entities with geometry: `gjk3d` on both vertex lists transformed by the entities' matrices, with factor 1 for `normalize` |
| Renderer.Contact | src/renderer.ts:178-181 | a contact requires both entities to have geometry |
| Renderer.ContactOfWorldShapes | src/renderer.ts:178-181 | the verdict on a pair is `gjk3d` on both transformed vertex lists |
| Renderer.Visited | src/renderer.ts:174-175 | the pairs the nested loops have visited before testing (i, j), in loop order |
| Renderer.Pairs | src/renderer.ts:174-177 | every pair the nested loops visit, in loop order |
| Renderer.VisitedMembers | src/renderer.ts:174-175 | before testing (i, j), the loops have visited exactly the pairs of earlier rows and the pairs (i, i + 1) to (i, j - 1) |
| Renderer.PairsMembers | src/renderer.ts:174-177 | the loops visit exactly the pairs i < j < n, so never a self-pair |
| Renderer.VisitedSorted | src/renderer.ts:174-175 | the pairs are visited in strictly increasing lexicographic order |
| Renderer.PairsSorted | src/renderer.ts:174-177 | the pairs are visited in strictly increasing lexicographic order, so no pair is visited twice |
| Renderer.VisitedLength | src/renderer.ts:174-175 | the number of pairs visited before (i, j) |
| Renderer.PairsLength | src/renderer.ts:174-177 | n entities give n (n - 1) / 2 pair tests |
| Renderer.VisitedPrefix | src/renderer.ts:174-175 | what has been visited at (i, j) is an initial segment of the full visiting order |
| Renderer.Visitable | src/renderer.ts:176-179 | a pair can be tested without a throw: both indices name entities and both entities have geometry |
| Renderer.Sweep | src/renderer.ts:171-188 | no more pairs are recorded than visited |
| Renderer.SweepRecords | src/renderer.ts:182-184 | record k is `{a: entities[i], b: entities[j]}` for hit k = (i, j). `normal` and `penetration` are never set |
| Renderer.SweepStaysStopped | src/renderer.ts:178-179 | once the getter has thrown, later pairs change nothing |
| Renderer.SweepCompletes | src/renderer.ts:178-179 | the sweep gets through exactly when every visited pair has both geometries |
| Renderer.SweepHitsVisited | src/renderer.ts:181-185 | only visited pairs are recorded |
| Renderer.SweepRecordsContacts | src/renderer.ts:181-185 | a completed sweep records exactly the visited pairs on which the test holds |
| Renderer.SweepHitsSorted | src/renderer.ts:174-185 | records come out in visiting order |
| Renderer.PairsSweepCompletes | src/renderer.ts:174-179 | `update` gets through exactly when fewer than two entities are given or every entity has geometry. With n >= 2, one entity without geometry makes it throw |
| Renderer.PairsHitsSorted | src/renderer.ts:174-185 | records come out in lexicographic (i, j) order |
| Renderer.PairsRecordCount | src/renderer.ts:174-185 | one record per hit, so at most n (n - 1) / 2 records |
| Renderer.CompletedHits | src/renderer.ts:181-185 | a completed sweep over exactly the pairs i < j < n records exactly those on which the test holds |
| Renderer.PairsSweepHits | src/renderer.ts:174-185 | a completed `update` records the pair (i, j) exactly when i < j < n and GJK reports contact |
| Renderer.SweepSnoc | src/renderer.ts:175-186 | loop-step lemma: visiting one more pair: stop when the getter throws, record on contact, otherwise keep |
| Renderer.RowAdvance | src/renderer.ts:176-185 | loop-step lemma: testing a pair with both geometries records it exactly when the verdict is true |
| Renderer.RowHalts | src/renderer.ts:178-179 | a throw at (i, j) ends `update` with the records made so far |
| Renderer.TestPair | src/renderer.ts:176-181 | the pair body throws exactly when a geometry is missing, and otherwise returns the GJK verdict |
| Renderer.Scene.constructor | src/renderer.ts:151 | a scene starts with no entities |
| Renderer.Scene.Add | src/renderer.ts:153-155 | `add` appends the entity at the end and leaves earlier entries unchanged. The compiled twin at dist/renderer.js:91-93 is the same code |
| Renderer.CollisionSystem.constructor | src/renderer.ts:166-169 | the collision list starts empty |
| Renderer.CollisionSystem.Update | src/renderer.ts:171-188 | the list is cleared, then holds exactly the records of the sweep over all pairs. It depends on the entities only, so nothing from an earlier call survives and two calls on the same entities leave the same list. `completed` is false when the getter threw, and the list then holds the records made before the throw. The compiled twin at dist/renderer.js:99-114 is the same code |
| Renderer.CollisionSystem.CheckRow | src/renderer.ts:175-186 | the inner loop over j either finishes row i with its records appended, or ends the whole sweep at the throwing pair. The compiled twin at dist/renderer.js:102-112 is the same code |
| Renderer.CollisionSystem.VisitPair | src/renderer.ts:176-185 | one inner iteration advances the sweep by pair (i, j), or ends it at a throw |

## Left out

- Floating point. All arithmetic is over exact reals. Float32 storage of positions, normals and texture coordinates, and the rounding of `vec3` operations, are not modelled.
- `vec3.normalize` at src/gjk.ts:15 is modelled as multiplication by an arbitrary positive factor. If S is zero the direction stays zero. `Gjk.GjkScaleFree` shows that the answer does not depend on the factor, so the sweep uses 1.
- Gjk.Gjk3d: an empty point list is answered false without computing. The source reads `s[0]` of an empty array, computes with NaN for all 64 turns and returns false; the NaN values themselves, which exact reals cannot express, are not modelled.
- Gjk.FarthestPoint: requires a non-empty list of whole triples. On an empty list the source returns NaN components, which exact reals cannot express.
- Gjk.GjkTrueMeansEnclosing: proves the face test on the final tetrahedron, not that the origin lies in its convex hull. A degenerate tetrahedron (repeated or coplanar points) passes the face test, so the hull claim does not follow from the code.
- Utils.TransformVertices: requires a length that is a multiple of 3. The source would read `undefined` past the end and produce NaN components.
- Renderer.CollisionSystem.Update: requires every geometry present to hold whole triples (a length that is a multiple of 3, possibly zero). A partial triple makes `transformVertices` read `undefined` and GJK compute with NaN.
- Utils.Remap: requires `inMin != inMax`. The source would divide by zero and return NaN or an infinity.
- Utils.FlipRows: requires the pixel buffer to hold exactly w * h * 4 bytes, as `readPixels` delivers it. A shorter buffer makes `subarray` clip, which is not modelled.
- `parseFloat` and `parseInt` are function parameters. `undefined` fields read by `extractNumsFromObjLine` are represented as NaN.
- A thrown error (the `geometry` getter's string, the TypeError of spreading `undefined` in `parseObj`) is modelled as a result:
  - `None` from `ParseObj`;
  - `completed == false` from `Update`, with the collision list as it stood at the throw.
  Who catches it is not modelled.
- Strings are sequences of characters. UTF-16 code units versus code points are not distinguished.
- `console.error` logging in `gjk3d`, `handleSimplex` and `rayTriangleIntersection` is left out.
- `extractVecFromObjLine` (src/parser.ts:68-81) is not modelled. Nothing calls it.
- `Transform.getMatrix` is a gl-matrix call. Each entity carries its model matrix as an input instead.
- `Array.from` copies positions before `transformVertices`. Sequences are values here, so input lists cannot be modified.
- `Entity.id` comes from `Math.random` and is an arbitrary integer here.
- The canvas, image-data, blob and download parts of `saveFrame` are left out, as is the rest of `src/utils.ts` outside the helpers above. `screenPointToRay`, `transformRay` and `orientZAxisGizmo` use matrix inversion, square roots and trigonometry.
- The WebGL `Renderer` class, the shaders, `Selection`, `TransformGizmo`, `Input` and `Material` hold no logic of the collision core.
- Symmetry of GJK in its two point sets is not claimed. The seed direction (1, 0, 0) is fixed, so the code does not promise it.
