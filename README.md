# CustomCloth: mass-spring data layer and quad mesh builder

This project models the CPU side of the CustomCloth Unreal plugin's cloth mesh
component:

- a mesh vertex (`FClothMeshVertex`), which carries physics state: a velocity
  and a "physics disabled" (pinned) flag;
- a damped spring between two vertices (`FClothMassString`), which computes a
  Hooke's-law force with damping along the spring axis and applies it to the
  velocities of its endpoints;
- the mesh buffers (`FClothMeshData`) and the component's mesh builder. The
  builder rebuilds the buffers as one flat quad of size `ClothSize` and folds
  the vertex positions into the local bounding box.

The project has three modules:

- `Vectors` (vectors.dfy) holds the engine values the code uses:
  - `FVector` and `FVector2D`, as tuples of reals;
  - `FColor`, with 8-bit channels;
  - `FBox`, with `operator+=`.
  `FVector::Length` and `FVector::GetSafeNormal` are engine code and are not
  part of this model. They are passed in as a `VectorMath` record, and `Sound`
  states what the cloth code relies on. The zero vector has length 0 and
  normal 0. Any other vector has a positive length and a unit normal, the
  length times the normal gives the vector back, and the vector's component
  along its normal is its length.
- `ClothData` (cloth_data.dfy) holds the `Vertex`, `MassSpring` and
  `ClothMeshData` classes.
  - A spring refers to its endpoints by reference, so one vertex may be both
    ends.
  - `ApplyForce` changes only the two endpoints' `Velocity` fields.
  - The force is the function `Force` over a `SpringState` snapshot: the
    spring's parameters plus its endpoints' positions and velocities.
    `MassSpring.State` takes that snapshot, and `ApplyForce` applies the
    `Impulse` computed from it.
- `ClothComponent` (cloth_component.dfy) holds the `ClothMeshComponent` class:
  `RecreateMesh`, `RecreateMeshData` and `UpdateLocalBounds`. It also holds
  the conversion to the renderer's dynamic mesh vertex.

## Model

| member | source | states |
|---|---|---|
| ClothData.Vertex.Default | Source/CustomCloth/Public/ClothMeshComponent.h:51-57 | a default vertex sits at the origin, at rest, faces +Z, is white (alpha 255) and is not pinned |
| ClothData.Vertex.constructor | Source/CustomCloth/Public/ClothMeshComponent.h:59-65 | the explicit constructor stores the given position, colour and normal; velocity is zero and the vertex is not pinned |
| ClothData.MassSpring.constructor | Source/CustomCloth/Public/ClothMeshComponent.h:68-115 | a new spring has Ks = 17, Kd = 0.5, the given rest length and the two given endpoints |
| ClothData.MassSpring.SetParamPercent | Source/CustomCloth/Public/ClothMeshComponent.h:90-94 | Ks and RestLength are multiplied by their factors; Kd and both endpoints are unchanged |
| ClothData.MassSpring.ApplyForce | Source/CustomCloth/Public/ClothMeshComponent.h:96-110 | the impulse F = force * dt + additional force is added to A's velocity unless A is pinned and subtracted from B's unless B is pinned; no position or pin flag changes; when both ends are free the velocity sum is kept; a spring from a vertex to itself leaves that vertex unchanged |
| Vectors.NormalDotIsLength | Source/CustomCloth/Public/ClothMeshComponent.h:81-83 | for a sound Length and GetSafeNormal, the component of a vector along its own safe normal is its length |
| ClothData.Force | Source/CustomCloth/Public/ClothMeshComponent.h:76-88 | GetForce: the spring force is the safe normal of B - A scaled by one number, the axial force Ks * stretch - Kd * closing speed |
| ClothData.Impulse | Source/CustomCloth/Public/ClothMeshComponent.h:99 | the SpringForce of ApplyForce, force * dt + additional force, is the additional force plus the safe normal of B - A scaled by dt * axial force |
| ClothData.ForceVanishesAtRest | Source/CustomCloth/Public/ClothMeshComponent.h:76-88 | at the rest length and with equal endpoint velocities the force is zero |
| ClothData.ForceVanishesWhenCoincident | Source/CustomCloth/Public/ClothMeshComponent.h:76-88 | when the endpoints coincide the safe normal is zero, so the force is zero whatever the rest length and velocities |
| ClothData.AxialForceWithoutDamping | Source/CustomCloth/Public/ClothMeshComponent.h:81-86 | with equal endpoint velocities the damping term is zero and the axial force is Ks * (distance - RestLength) |
| ClothData.ImpulseAlongAxis | Source/CustomCloth/Public/ClothMeshComponent.h:76-99 | when B - A has its length as component along its own safe normal, the impulse (no extra force) has component dt * axial force * distance along B - A |
| ClothData.StretchedSpringContracts | Source/CustomCloth/Public/ClothMeshComponent.h:81-109 | for a sound Length and GetSafeNormal, a spring stretched beyond a non-negative rest length (Ks > 0, dt > 0, no extra force, equal endpoint velocities) makes ApplyForce change A's velocity towards B and B's towards A |
| ClothData.CompressedSpringExpands | Source/CustomCloth/Public/ClothMeshComponent.h:81-109 | for a sound Length and GetSafeNormal, a spring shorter than its rest length with its ends apart, under the same conditions, makes ApplyForce change the two velocities away from each other |
| ClothData.ClothMeshData.constructor | Source/CustomCloth/Public/ClothMeshComponent.h:118-127 | new mesh data has empty vertex and index buffers |
| ClothData.ClothMeshData.Reset | Source/CustomCloth/Public/ClothMeshComponent.h:129-133 | both buffers are empty afterwards, which is a well-formed triangle list |
| ClothData.ClothMeshData.AddVertex | Source/CustomCloth/Private/ClothMeshComponent.cpp:371-374 | appending FClothMeshVertex{position} adds one new vertex at that position, at rest, free, white, facing +Z, after the old ones; the index buffer is unchanged |
| ClothComponent.ConvertClothMeshToDynMeshVertex | Source/CustomCloth/Private/ClothMeshComponent.cpp:129-133 | the render vertex receives the cloth vertex's position and colour; its texture coordinate and tangents keep their values |
| ClothComponent.QuadIndices | Source/CustomCloth/Private/ClothMeshComponent.cpp:376-379 | the quad's index list has six entries, whole triangles only, every index below 4, and no triangle repeats a corner |
| ClothComponent.QuadTrianglesAgree | Source/CustomCloth/Private/ClothMeshComponent.cpp:371-379 | both triangles of the quad have signed area -(W * H) / 2, so they wind the same way and their areas add up to the area of the W x H rectangle |
| ClothComponent.Positions | Source/CustomCloth/Private/ClothMeshComponent.cpp:388-392 | the sequence of vertex positions has one entry per vertex, in buffer order |
| Vectors.AddPoint | Source/CustomCloth/Private/ClothMeshComponent.cpp:391 | adding a point gives a valid box that contains the point and encloses a valid old box; an invalid box becomes the box of that single point; a valid box that already holds the point does not change |
| ClothComponent.BoxOf | Source/CustomCloth/Private/ClothMeshComponent.cpp:386-392 | folding points into FBox(ForceInit) gives a valid box exactly when there is a point, the zero box when there is none, and a box that contains every point |
| ClothComponent.BoxOfIsTight | Source/CustomCloth/Private/ClothMeshComponent.cpp:386-392 | each of the six faces of the folded box of a non-empty list of points touches one of the points |
| ClothComponent.TightAfterAdd | Source/CustomCloth/Private/ClothMeshComponent.cpp:391 | adding a point to the tight box of some points gives the tight box of the points plus the new one |
| ClothComponent.QuadBox | Source/CustomCloth/Private/ClothMeshComponent.cpp:371-381 | the box of the four corners spans min(0, W)..max(0, W) by min(0, H)..max(0, H) at z = 0, whatever the signs of W and H |
| ClothComponent.FoldedBounds | Source/CustomCloth/Private/ClothMeshComponent.cpp:384-394 | the fold of a vertex buffer's positions contains every vertex, is valid and tight when there are vertices, and is the zero box when there are none |
| ClothComponent.QuadMeshBounds | Source/CustomCloth/Private/ClothMeshComponent.cpp:358-394 | the box of a rebuilt quad mesh's vertices is that span |
| ClothComponent.QuadMeshIsDeterminedBySize | Source/CustomCloth/Private/ClothMeshComponent.cpp:358-379 | two meshes rebuilt for the same size agree in indices, positions and all other vertex fields, whatever they held before |
| ClothComponent.ClothMeshComponent.constructor | Source/CustomCloth/Public/ClothMeshComponent.h:180-202 | a component starts with empty buffers and a 10 x 10 ClothSize |
| ClothComponent.ClothMeshComponent.RecreateMeshData | Source/CustomCloth/Private/ClothMeshComponent.cpp:358-382 | the buffers are replaced by four distinct vertices at (0,0,0), (W,0,0), (0,H,0), (W,H,0), at rest, free, white and facing +Z, and by the indices [0,2,1,1,2,3], a well-formed triangle list; the bounds are refreshed from the new vertices; ClothSize is unchanged |
| ClothComponent.ClothMeshComponent.RecreateMesh | Source/CustomCloth/Private/ClothMeshComponent.cpp:335-338 | rebuilding gives the quad mesh above with bounds spanning min(0, W)..max(0, W) by min(0, H)..max(0, H) at z = 0 |
| ClothComponent.ClothMeshComponent.UpdateLocalBounds | Source/CustomCloth/Private/ClothMeshComponent.cpp:384-394 | the bounds are the fold of all vertex positions into FBox(ForceInit); they contain every vertex, each face touches a vertex, and an empty buffer gives the zero bounds |

## Left out

- The vertex factory, shader parameters, scene proxy and draw submission (ClothMeshComponent.cpp:14-331) are left out. They are rendering plumbing.
- `SendMeshDataToRenderThread` (ClothMeshComponent.cpp:340-356) is left out. It enqueues a render-thread command.
- The `FBoxSphereBounds` conversion of the local box is left out, because it needs a square root and engine code. `LocalBounds` holds the `FBox` itself, and the zero sphere bounds appear as the zero, invalid box. `CalcBounds`, `UpdateBounds` and `MarkRenderTransformDirty` are engine calls and are left out too.
- The compute-shader dispatcher (ClothMeshCS.h, ClothMeshCS.cpp) and the module startup (CustomCloth.cpp) are not part of this model.
- `TickComponent`, `BeginPlay`, `InitializeComponent`, `GeneratePhysicalVertex` and the component constructor body are declared but not defined in the source. Nothing is modelled for them: no spring grid and no time integration.
- The engine's `FVector::Length` and `FVector::GetSafeNormal` are a parameter whose contract is `Sound`. The tolerance below which `GetSafeNormal` returns zero for a tiny non-zero vector is not modelled.
- Floats are modelled as reals: there is no rounding and no `FVector3f` narrowing cast in `ConvertClothMeshToDynMeshVertex`.
- The component's other properties (`ClothMaterial`, `ClothColor`, `DestinyX`, `DestinyY`, `ElasticParam`, `StepTime`, `Padding`) are left out. No modelled operation reads them. The bounds before the first rebuild are not specified either, because the engine leaves them default-constructed.
- A null spring endpoint cannot be represented. The source stops on it with `check()`.
- The unused constants `Mass`, `Cd` and `Sqrt2`, the unused `ESpringType` enum, and the unused `LocalCenter`, axis and `XOffset`/`YOffset` locals of `RecreateMeshData` are left out.
- ClothComponent.ClothMeshComponent.RecreateMeshData: does not say that the new vertices are objects that did not exist before. In the source they are fresh slots of a buffer that was emptied, and pointers that old springs held into the old buffer dangle. The model does not represent dangling pointers.
