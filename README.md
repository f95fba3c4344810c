# Robot-arm kinematic chain and terrain mesh, modelled in Dafny

This project models two parts of a small OpenGL course repository.

**The kinematic chain of the robot arm** (`exam_project/IKStructure.cpp`).
The arm is a singly linked list of `Joint`s, root first. Each joint holds three things:
- an offset from its parent's anchor (`m_position`);
- a local rotation (`m_angle`, a quaternion);
- an optional child that it owns.

The operations on the chain are:
- `Resize` grows or truncates the chain.
- `RunIK` performs one cyclic-coordinate-descent (CCD) sweep towards a target.
- `getCoordinates` lists every joint's world-space anchor.
- `GetEndPoint` gives the tip of the arm.

In `ik_structure.dfy` the chain is the heap-linked class `IKStructure.Joint`. Its ghost fields are:
- `Segments`, the sequence of (offset, rotation) pairs from this joint to the tip;
- `Repr`, the set of joints in the chain.

Every method is proved against a specification function over that sequence:
- `Resized` for `Resize`;
- `Sweep` for `RunIK`;
- `WorldPoints` for `getCoordinates`;
- `EndPoint` for `GetEndPoint`.

Lemmas then prove what those functions promise.

The vector and rotation algebra of glm is in `geometry.dfy`:
- vectors are triples of reals;
- a rotation is its 3x3 matrix;
- quaternion product is matrix product, and the inverse of a unit quaternion is the transpose.

The two laws the chain relies on are proved there: applying the identity changes nothing, and applying `a * b` is applying `b`, then `a`.

**The terrain mesh of exercise 1** (`exercises/exercise01/TerrainApplication.cpp`). `TerrainApplication::Initialize` does three things:
- builds a `(gridX + 1) x (gridY + 1)` lattice of vertices, column by column, each coloured by its height band (`get_color`);
- emits two triangles per grid cell into the index buffer;
- then, in a second loop, finds for every vertex the four neighbours, clamped to the grid, from which its normal is computed.

In `terrain.dfy`:
- The vertex and index loops are the methods `BuildGrid` and `PushColumn`, over sequences.
- The neighbour loop is `SetNormals` and `SetColumnNormals`, which update an `array<Vertex>` in place.
- `Initialize` chains them.

The proofs show the following:
- The buffers have the sizes the draw call relies on.
- Vertex `i` is grid vertex `(i / (gridY + 1), i % (gridY + 1))`.
- Every triangle index names a vertex.
- Each cell's two triangles cover exactly its four corners.
- The neighbour stencil is the grid neighbour clamped to the border.
- The colour is a monotone step function of the height.

## Model

| member | source | states |
|---|---|---|
| Geometry.Apply | exam_project/IKStructure.cpp:4-6 | `ApplyMatrix` for the rotation part of a matrix: component i of the result is the dot product of row i with the vector; a translation part is added separately with `Add` |
| Geometry.Inverse | exam_project/IKStructure.cpp:42 | `glm::inverse(m_angle)` as a matrix: the transpose, the matrix of the conjugate quaternion |
| Geometry.Compose | exam_project/IKStructure.cpp:50 | the quaternion product `m_angle * shiftAngle` as the matrix product: row i of the left factor multiplied by the right factor |
| Geometry.ApplyIdentity | exam_project/IKStructure.cpp:30 | the zero rotation `glm::quat(1, 0)` leaves every vector unchanged |
| Geometry.ApplyCompose | exam_project/IKStructure.cpp:50-53 | the rotation `m_angle * shiftAngle` (and `rotationMatrix * toMat4(m_angle)` on line 68) applies the right factor first, then the left one |
| Geometry.ApplyAdd | exam_project/IKStructure.cpp:53-54 | a rotation distributes over vector addition, so a rotate-then-translate frame can be split into its parts |
| Geometry.ApplyScale | exam_project/IKStructure.cpp:49 | a rotation commutes with scaling, so it preserves the direction of a scaled vector |
| Geometry.ApplyInverseOrthonormal | exam_project/IKStructure.cpp:42 | for a rotation matrix, `inverse(m_angle)` (the transpose) undoes `m_angle`, so going to the local frame and back is the identity |
| IKStructure.Resized | exam_project/IKStructure.cpp:20-33 | the chain after `Resize(n)` has exactly n + 1 joints and keeps the root |
| IKStructure.ResizedAt | exam_project/IKStructure.cpp:20-33 | joint i after `Resize(n)` is the old joint i where one existed and the default joint (offset (1.5, 0, 0), no rotation) otherwise |
| IKStructure.ResizedTwice | exam_project/IKStructure.cpp:20-33 | resizing to m and then to n <= m is the same as resizing to n directly |
| IKStructure.ResizedIdempotent | exam_project/IKStructure.cpp:20-33 | `Resize(n)` twice is `Resize(n)` once |
| IKStructure.ResizedToOwnLength | exam_project/IKStructure.cpp:20-33 | resizing to the current number of descendants changes nothing |
| IKStructure.EndPoint | exam_project/IKStructure.cpp:75-87 | a joint without a child ends at its own offset; otherwise the child's end point is rotated by the joint's angle and shifted by its offset |
| IKStructure.EndPointUnrotated | exam_project/IKStructure.cpp:75-87 | with every rotation at identity, the tip is the sum of all offsets |
| IKStructure.EndPointOfStraightArm | exam_project/IKStructure.cpp:75-87 | three unrotated segments of equal offset p end at 3p |
| IKStructure.EndPointOfThreeTwos | exam_project/IKStructure.cpp:75-87 | three unrotated segments of offset (2, 0, 0) end at (6, 0, 0) |
| IKStructure.WorldPoints | exam_project/IKStructure.cpp:57-72 | `getCoordinates` yields exactly one world point per joint |
| IKStructure.WorldPointsEndAtEndPoint | exam_project/IKStructure.cpp:57-87 | the last world point is the end point that `GetEndPoint` computes, carried by the same frame: the coordinates and the end point agree |
| IKStructure.WorldPointsFromOrigin | exam_project/IKStructure.cpp:57-87 | from the identity frame, the first point is the root's offset and the last is `GetEndPoint()` |
| IKStructure.LocalTarget | exam_project/IKStructure.cpp:42-43 | the target shifted by minus the joint's offset, then rotated by the inverse of its angle |
| IKStructure.Sweep | exam_project/IKStructure.cpp:35-55 | one CCD sweep keeps the number of joints, and the point it returns is the forward kinematics (`EndPoint`) of the rotated chain |
| IKStructure.SweepKeepsOffsets | exam_project/IKStructure.cpp:35-55 | `RunIK` changes only rotations: every offset is unchanged, and the tip joint is unchanged entirely |
| IKStructure.SweepKeepsOffsetAt | exam_project/IKStructure.cpp:35-55 | joint i's offset is unchanged by a sweep |
| IKStructure.SweepKeepsTip | exam_project/IKStructure.cpp:38-39 | the joint without a child is neither rotated nor moved |
| IKStructure.SweepOfEndEffector | exam_project/IKStructure.cpp:38-39 | a one-joint chain is left as it is, and the sweep returns its own offset |
| IKStructure.SweepAimsAtTarget | exam_project/IKStructure.cpp:46-54 | after the correction, the new end point lies on the ray from the joint's anchor towards the target (for a rotation that turns one vector onto another's direction, and non-degenerate inputs) |
| IKStructure.TurnedTowards | exam_project/IKStructure.cpp:49-54 | turning the child's end point onto the local target turns it onto the target as seen from the parent |
| IKStructure.Joint.constructor | exam_project/IKStructure.cpp:8-13 | the new joint holds the given offset, rotation and child, and its chain is this joint followed by the child's chain |
| IKStructure.Joint.SetChild | exam_project/IKStructure.cpp:15-18 | replaces the whole tail by the given child and keeps this joint's offset and rotation |
| IKStructure.Joint.Resize | exam_project/IKStructure.cpp:20-33 | the chain becomes `Resized(old chain, childAmount)`: existing joints are kept, surplus ones are dropped, missing ones are freshly allocated default joints |
| IKStructure.Joint.RunIK | exam_project/IKStructure.cpp:35-55 | the chain becomes the sweep of the old chain and the result is the sweep's end point; no joint is added or removed |
| IKStructure.Joint.GetCoordinates | exam_project/IKStructure.cpp:57-72 | the result is `output` followed by the world point of every joint, root first |
| IKStructure.Joint.GetEndPoint | exam_project/IKStructure.cpp:75-87 | the result is the forward kinematics `EndPoint` of the chain |
| Terrain.IntsToRgb | exercises/exercise01/TerrainApplication.cpp:45-47 | each 0..255 channel divided by 255 |
| Terrain.GetColor | exercises/exercise01/TerrainApplication.cpp:49-63 | the first band whose upper bound -0.15, -0.05, 0.1 or 0.3 exceeds z (water, sand, grass, mountain), and snow above them all |
| Terrain.Passed | exercises/exercise01/TerrainApplication.cpp:49-63 | the band index is at most the number of boundaries |
| Terrain.GetColorIsBand | exercises/exercise01/TerrainApplication.cpp:49-63 | `get_color(z)` is band k of (water, sand, grass, mountain, snow), where k is the number of boundaries -0.15, -0.05, 0.1, 0.3 at or below z |
| Terrain.GetColorExtremes | exercises/exercise01/TerrainApplication.cpp:49-63 | every height gets one of the five colours; snow exactly for z >= 0.3, water exactly for z < -0.15 |
| Terrain.GetColorMonotone | exercises/exercise01/TerrainApplication.cpp:49-63 | the colour band never falls as the height grows |
| Terrain.PassedMonotone | exercises/exercise01/TerrainApplication.cpp:49-63 | the number of boundaries passed never decreases with the height |
| Terrain.PaletteDistinct | exercises/exercise01/TerrainApplication.cpp:50-62 | the five colours are pairwise different, so the colour identifies the band |
| Terrain.PaletteInUnitRange | exercises/exercise01/TerrainApplication.cpp:45-47 | every channel of every band colour, scaled by 1/255, lies in [0, 1] |
| Terrain.IndexDecode | exercises/exercise01/TerrainApplication.cpp:110-113 | the position `y + x * (gridY + 1)` of vertex (x, y) decodes back to x by division and to y by remainder |
| Terrain.IndexInGrid | exercises/exercise01/TerrainApplication.cpp:130-134 | the position of every grid vertex lies inside the vertex buffer |
| Terrain.IndexOfPosition | exercises/exercise01/TerrainApplication.cpp:130-134 | every buffer position is the position of the grid vertex it decodes to |
| Terrain.GridVertex | exercises/exercise01/TerrainApplication.cpp:107-108 | the vertex pushed for (x, y): grid (texture) coordinates x and y, height z from the noise, the band colour of z, and no normal yet |
| Terrain.ColumnVertices | exercises/exercise01/TerrainApplication.cpp:104-108 | the inner vertex loop pushes exactly one vertex per row |
| Terrain.ColumnVerticesAt | exercises/exercise01/TerrainApplication.cpp:104-108 | row y of a column is grid vertex (x, y) |
| Terrain.GridVerticesLength | exercises/exercise01/TerrainApplication.cpp:100-108 | after n columns the buffer holds n * (gridY + 1) vertices |
| Terrain.GridVerticesAt | exercises/exercise01/TerrainApplication.cpp:100-111 | grid vertex (x, y) is stored at position `y + x * (gridY + 1)`, as the comment on lines 110-111 says |
| Terrain.CellIndices | exercises/exercise01/TerrainApplication.cpp:113-124 | the six indices c, d, b, d, a, b, with a = y + x * rows, b = a - 1, c = y + x * rows - rows - 1 and d = a - rows |
| Terrain.ColumnIndices | exercises/exercise01/TerrainApplication.cpp:112-125 | a column emits six indices per cell |
| Terrain.MeshLength | exercises/exercise01/TerrainApplication.cpp:112-125 | the index buffer holds 6 * gridX * gridY entries, the count passed to glDrawElements on line 212 |
| Terrain.CellCorners | exercises/exercise01/TerrainApplication.cpp:113-124 | the triangles (c, d, b) and (d, a, b) of cell (x, y) use exactly the corners (x-1, y-1), (x-1, y), (x, y-1) and (x, y) |
| Terrain.CellIndicesInRange | exercises/exercise01/TerrainApplication.cpp:112-124 | every index of a cell lies between 0 and the index of the vertex just pushed |
| Terrain.ColumnInRange | exercises/exercise01/TerrainApplication.cpp:104-125 | every index emitted for a column lies between 0 and the last vertex pushed |
| Terrain.MeshInRange | exercises/exercise01/TerrainApplication.cpp:100-128 | every index emitted after n columns names one of the vertices pushed so far |
| Terrain.PushColumn | exercises/exercise01/TerrainApplication.cpp:104-127 | one pass of the inner loop appends the column's vertices and, for x > 0, the column's cell indices |
| Terrain.BuildGrid | exercises/exercise01/TerrainApplication.cpp:94-128 | the loops produce (gridX + 1)(gridY + 1) vertices, vertex i being grid vertex (i / (gridY + 1), i % (gridY + 1)) with its height and band colour, and the index buffer `MeshIndices`, every entry of which names a vertex |
| Terrain.Neighbours | exercises/exercise01/TerrainApplication.cpp:136-152 | up = index + 1 and down = index - 1, each replaced by index at the top or bottom of the column (`index % rows`); left = index - rows and right = index + rows, each replaced by index in the first or last column |
| Terrain.NeighboursClamped | exercises/exercise01/TerrainApplication.cpp:134-152 | the up, down, left and right neighbours of vertex (x, y) are (x, y+1), (x, y-1), (x-1, y) and (x+1, y), each clamped to the grid |
| Terrain.NeighboursInRange | exercises/exercise01/TerrainApplication.cpp:134-155 | all four neighbours are vertices, so the reads on lines 154-155 stay in the buffer |
| Terrain.NeighboursDistinct | exercises/exercise01/TerrainApplication.cpp:150-155 | with at least one cell in a direction, the two neighbours in that direction differ, so the slope denominators subtract two different vertices |
| Terrain.SetColumnNormals | exercises/exercise01/TerrainApplication.cpp:133-159 | one pass of the inner neighbour loop sets the stencil of exactly the vertices of column x and leaves all others unchanged |
| Terrain.SetNormals | exercises/exercise01/TerrainApplication.cpp:130-160 | every vertex keeps its data and gets the normal stencil `Neighbours` of its own index |
| Terrain.Initialize | exercises/exercise01/TerrainApplication.cpp:89-160 | the vertex buffer has the grid layout with every stencil set, the index buffer has the 2 * 3 * gridX * gridY entries drawn on line 212, and every index names a vertex |

## Left out

- Floating point: vectors, heights and colours are exact reals, so the comparisons in `get_color` are exact. The slope quotients of the normals are not modelled. The triangle indices, computed as `float` in the source, are exact integers; they are exact in single precision for any grid below 2^24 vertices.
- glm quaternions: a rotation is represented by its 3x3 matrix, which is what `glm::toMat4` produces. Quaternion normalisation and drift are not modelled.
- IKStructure.Joint.RunIK: `glm::rotation(glm::normalize(endPoint), glm::normalize(localTarget))` is the parameter `between`, because it needs a square root. Its geometric promise is stated as the predicate `RotatesOnto`. `glm::normalize` of a zero vector (a zero end point, or a target on the anchor) is left to `between`. `SweepAimsAtTarget` excludes those inputs.
- Convergence of repeated `RunIK` calls is not modelled. The callers that loop on it, in `RaymarchingApplication.cpp`, are not part of this model; neither is `MoveArm`.
- IKStructure.Joint.GetCoordinates: the source's `translationMatrix` and `rotationMatrix` are general `mat4`s. Here they are a translation vector and a rotation. The source only ever passes the identity, or `glm::translate` and a product of rotations.
- IKStructure.Joint.Resize: requires `childAmount >= 0`. For a negative count the source recurses without end, growing the chain.
- `std::shared_ptr` sharing: each joint owns its child exclusively (the `Repr` footprint). `setChild` requires the new child's chain not to contain the joint itself, so that the chain stays a list.
- The headers `IKStructure.h` and `RaymarchingApplication.h` are not part of this model. `Bone` there is the same type as `Joint`.
- Perlin noise (`my_perlin_noise`, `stb_perlin_fbm_noise3`) is the parameter `height`.
- The vertex position `(x / gridX - 0.5, y / gridY - 0.5)` is not stored: it divides by zero for an empty grid. A vertex keeps its grid coordinates, which are also its texture coordinates.
- Terrain.SetNormals: the normal `Vector3(delta_x, delta_y, 1).Normalize()` is not computed. A vertex's `normal` field records the four neighbour indices its slopes are taken between.
- `m_gridX` and `m_gridY` are natural numbers; the header declaring them is not part of this model.
- OpenGL and ImGui: buffers, attributes, shaders, rendering, `Update`, `Render`, `Cleanup` and `BuildShaders` are left out.
