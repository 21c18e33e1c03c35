# HPEngine core, modelled in Dafny

This project models the core of HPEngine, a small C# 2D game engine built on
OpenTK, and proves properties of the model. The modules are:

- **Registry** and **Scene**: the entity registry of `World.cs` and
  `GameObject.cs`.
  - A world keeps an update list, a draw list and one list per tag name.
  - Every game object caches its own position in each list: `UpdateIndex`,
    `DrawIndex` and `TagIndices`.
  - Requests to add, remove, tag and untag objects are queued. `FlushQueues`
    applies them in four phases: tag-adds, tag-removes, admissions,
    retirements.
  - Lists lose elements by swap-remove: the last element moves into the gap
    and its cached slot is patched.
  - `Registry` states every operation as a function on an immutable state and
    proves the *slot invariant*: every cached slot equals the object's
    position in that list.
  - `Scene` holds the classes `GameObject` and `World`. Their fields are
    updated in place, and each method is proved to produce the `Registry`
    function of the old state. A ghost mirror of every object's fields ties
    the two together.
  - The lifecycle hooks `OnAdd`, `OnRemove`, `OnUpdate` and `OnDraw` are
    recorded in a ghost trace. The trace also records the lists as they stood
    when each hook ran.
- **Vectors**: the integer vector `Vec2i` of `Vec2.cs`, with C#'s truncating
  integer division.
- **Wave**: `LoadWave`, `GetALFormat` and `LoadData` of
  `Audio/AudioSource.cs`.
  - The WAVE header parser works on a byte sequence and fails where .NET would
    throw.
  - An encoder is proved to round-trip through it.
- **Textures**: the GPU texture `Graphics/Texture2D.cs` and the colour type.
- **Shaders**: the attribute and uniform location caches of `Shader.cs`.
- **Animation**: the sprite-sheet texture of `AnimatedTexture.cs`.
- **Rendering**: the batching renderer of `Renderer.cs`.
  - Shapes append indices and vertices to the current batch.
  - A batch is drawn, as one recorded draw call, when a shape needs another
    format, texture or shader, and when the frame ends.
  - The renderer's invariant is that every recorded draw call only names
    vertices it uploaded.
- **Audio**: the OpenAL sources of `Audio/SimpleAudioSource.cs` and
  `PooledAudioSource.cs`.
  - A pooled source plays its sources in rotation.
  - The OpenAL device is a class that hands out names and records the calls
    made on it.
- **Assets**: the caches of `Content.cs` and `Content/ContentManager.cs`.
- **Input**: the named key and mouse-button actions of `InputMap.cs`.
- **Wrappers**: `Option` and `Result`.

### Behaviour of the source that the model exhibits

- **Retiring an object can throw.** `World.cs:140-143` enumerates
  `obj.TagIndices` while `RemoveTag` edits it.
  - When `obj` is the last element of a tag's list, `RemoveFromList` returns
    `obj` itself, and `World.cs:92` writes the key back into `obj.TagIndices`.
  - On .NET Core 3.0 and later, a dictionary enumerator survives a removal but
    not an insertion, so the enumeration then throws. The model assumes that
    runtime. On .NET Framework any removal would break the enumeration, and
    every retirement of a tagged object would throw.
  - The model makes this part of the retirement's definedness
    (`KeysStable`).
  - `Registry.SoleTaggedRetireThrows` shows that an object alone in one of its
    tags cannot be retired.
  - `Registry.UntagLastKeepsStaleSlot` shows the stale key left behind by an
    untag of the last element.
- **A batch's top index is raised only by an index above it**
  (`Renderer.cs:41`, `>` rather than `>=`). `Rendering.RaiseAtTop` shows that
  an index equal to the top leaves it unchanged. Every shape first adds
  exactly such an index (`Renderer.cs:290`, `Renderer.cs:328`), and then
  adds `start + 1`, which raises the top. So every shape ends with the top
  above all of its indices, as `Rendering.ShapeTops` shows.
- **`RequestBatch` ignores the primitive type** (`Renderer.cs:170-172`). A
  line drawn after a rectangle joins the rectangle's triangle batch, as
  `Rendering.Renderer.RectangleThenLine` shows from the contracts of
  `Rectangle` and `Line`.
- **`FlushBatch` takes attribute locations from the *current* shader**
  (`Renderer.cs:151`, `Renderer.cs:237-252`). The matrices go to the batch's
  own shader.
- **`AudioSource.LoadWave` returns every byte after the 44-byte header as
  samples**, whatever size the data chunk declares (`Audio/AudioSource.cs:72`).

## Model

| member | source | states |
|---|---|---|
| Registry.SwapRemove | World.cs:36-43 | the list loses its last position, position `index` holds the old last element, every other position is unchanged, and the old last element is returned |
| Registry.SwapRemovePermutes | World.cs:36-43 | what is left plus the removed element is the original multiset |
| Registry.AddTag | World.cs:63-73 | defined only when obj does not already hold the name (Dictionary.Add throws); the update and draw lists, queues, counter, trace and known objects are unchanged |
| Registry.AddTagAppends | World.cs:65-70 | the tag's list, created if missing, gets obj appended and obj's slot for it is the old length; no other tag and no other object's cache changes |
| Registry.AddTagKeepsSlots | World.cs:63-73 | AddTag keeps every cached slot equal to its list position, and obj's new slot for the name points at obj |
| Registry.RemoveTag | World.cs:75-95 | a name with no list changes nothing; otherwise the update and draw lists, tag names, queues and known objects are unchanged |
| Registry.RemoveTagEffect | World.cs:83-92 | for a known name an empty list stays as it is; otherwise the list loses exactly the element at obj's slot; no other tag changes, and no cache but obj's and the moved last element's |
| Registry.RemoveTagKeepsSlots | World.cs:75-95 | removing a held tag keeps the slot invariant and obj is no longer in that tag's list |
| Registry.UntagLastKeepsStaleSlot | World.cs:91-92 | untagging the last element of a list leaves obj out of the list but still holding the key |
| Registry.UntagOtherDropsSlot | World.cs:85-92 | untagging any other element drops obj's key |
| Registry.NotHeldNotListed | World.cs:69-70 | under the slot invariant, an object holding no slot for a name is not in that tag's list |
| Registry.Admit | World.cs:100-117 | the id counter advances by one; known objects and queues unchanged; closedness kept |
| Registry.AdmitKeepsSlots | World.cs:100-117 | admission sets World and id, appends obj to each flagged list with slot = new last position, and keeps the slot invariant |
| Registry.AdmitStamps | World.cs:102-103 | admission stamps its object with the counter's value and changes no other object |
| Registry.DropFromUpdate | World.cs:128-132 | a slot of -1 changes nothing; otherwise the list loses exactly the element at obj's slot (obj itself when the slot points at obj and obj is listed once), and obj keeps its own stale slot; nothing outside the update list and update slots changes |
| Registry.DropFromDraw | World.cs:134-138 | a slot of -1 changes nothing; otherwise the list loses exactly the element at obj's slot (obj itself when the slot points at obj and obj is listed once), and obj keeps its own stale slot; nothing outside the draw list and draw slots changes |
| Registry.DropFromUpdateKeepsSlots | World.cs:128-132 | leaving the update list at a true slot keeps the invariant and takes obj out of the list |
| Registry.DropFromDrawKeepsSlots | World.cs:134-138 | leaving the draw list at a true slot keeps the invariant and takes obj out of the list |
| Registry.DropTags | World.cs:140-143 | closed form of the key loop after the keys `done`: update and draw lists, names and queues unchanged |
| Registry.KeyOrder | World.cs:140 | the enumeration order lists each key of the table exactly once |
| Registry.Retire | World.cs:124-145 | one retirement appends exactly one OnRemove event seeing the lists before it, and changes no queue |
| Registry.DropTagsKeepsSlots | World.cs:140-143 | removing obj from every tag it holds keeps all other slots and leaves obj in no tag list |
| Registry.RetireKeepsOwnSlots | World.cs:128-138 | a retired object keeps the update and draw slots it had: only the moved object's slot is patched |
| Registry.ReadmitKeepsStaleSlot | World.cs:104-114 | an object retired from the update list and added again with update = false is in no update list yet still claims its old slot |
| Registry.RetireKeepsSlots | World.cs:124-145 | retiring an object that holds every membership it claims, and is last in none of its tag lists, is defined, keeps the slot invariant and leaves obj in no list |
| Registry.SoleTaggedRetireThrows | World.cs:140-143 | an object alone in one of its tag lists cannot be retired without the enumeration throwing |
| Registry.DropTagsNone | World.cs:140-143 | before the key loop runs, nothing has changed |
| Registry.DropTagsStep | World.cs:142 | one RemoveTag after the keys `done` gives the state after `done + {t}`: the visiting order does not matter |
| Registry.UntagsInAnyOrder | World.cs:140-143 | whatever order the keys are enumerated in, the loop ends in DropTags over the keys visited |
| Registry.UntagsEveryKey | World.cs:140-143 | the loop over every key of the snapshot ends in DropTags over all of them |
| Registry.UntagsNext | World.cs:140-143 | the loop may visit one more unvisited key, as one RemoveTag |
| Registry.TagAdds | World.cs:152-153 | when no AddTag throws, the phase leaves queues, counter, trace and known objects alone |
| Registry.TagRemoves | World.cs:156-157 | when no RemoveTag throws, only tag lists and tag slots change |
| Registry.TagRemovesSound | World.cs:156-157 | every untag of the phase removes a membership the object holds, which implies the phase is defined |
| Registry.Admits | World.cs:99-118 | the counter advances by the queue length; queues and known objects unchanged |
| Registry.AdmitsSound | World.cs:99-118 | no admitted object is already in a list it joins, which implies the phase is defined |
| Registry.Retires | World.cs:124-146 | when no turn throws, counter, queues and known objects are unchanged |
| Registry.RetiresSound | World.cs:124-146 | each object, in its turn, holds every membership it claims and is last in none of its tag lists, which implies the phase is defined |
| Registry.FlushTagAdds | World.cs:152-154 | the tag-add phase ends with its queue empty |
| Registry.FlushTagRemoves | World.cs:156-158 | the tag-remove phase ends with its queue empty and leaves the tag-add queue alone |
| Registry.FlushAdmits | World.cs:97-120 | FlushAddQueue ends with the add queue empty and leaves the tag queues alone |
| Registry.FlushRetires | World.cs:122-148 | FlushRemoveQueue ends with the remove queue empty and leaves the other queues alone |
| Registry.FlushQueues | World.cs:150-162 | all four queues are empty afterwards and no object is forgotten |
| Registry.TagAddsStep | World.cs:152-153 | the i-th turn of the tag-add loop is one AddTag on the state after the first i |
| Registry.TagRemovesStep | World.cs:156-157 | the i-th turn of the tag-remove loop is one RemoveTag on the state after the first i |
| Registry.AdmitsStep | World.cs:99-118 | the i-th turn of the admission loop is one Admit on the state after the first i |
| Registry.RetiresStep | World.cs:124-146 | the i-th turn of the retirement loop is one Retire on the state after the first i |
| Registry.TagAddsKeepSlots | World.cs:152-153 | the tag-add phase keeps the slot invariant |
| Registry.TagRemovesKeepSlots | World.cs:156-157 | a sound tag-remove phase keeps the slot invariant |
| Registry.AdmitsKeepSlots | World.cs:99-118 | a sound admission phase keeps the slot invariant |
| Registry.RetiresKeepSlots | World.cs:124-146 | a sound retirement phase keeps the slot invariant |
| Registry.FlushKeepsSlots | World.cs:150-162 | a sound FlushQueues is defined and keeps every cached slot equal to its list position |
| Registry.Calls | GameObject.cs:14-28 | the hook-and-object projection of the trace has one entry per event |
| Registry.AdmitsAppend | World.cs:105-115 | admission appends exactly the flagged objects to the update and draw lists, in queue order, and leaves tags alone |
| Registry.AdmitsHooks | World.cs:117 | admission extends the trace with one OnAdd per request, in queue order |
| Registry.AdmitsLeaveOthers | World.cs:99-118 | admission changes no object outside the queue |
| Registry.AdmitsIds | World.cs:102-103 | distinct admitted objects take consecutive ids from the counter in queue order and refer to this world |
| Registry.RemoveTagWithin | World.cs:75-95 | an untag only takes objects out of lists |
| Registry.UntagsWithin | World.cs:140-143 | the key loop only takes objects out of lists |
| Registry.RetireWithin | World.cs:124-145 | retirement only takes objects out of lists |
| Registry.RetiresHooks | World.cs:126 | retirement extends the trace with one OnRemove per queued object, in queue order |
| Registry.RetireKeepsDetached | World.cs:124-145 | an object in no list stays in no list when another is retired |
| Registry.RetireDetachesQueue | World.cs:124-146 | the last turn of the phase detaches its object and keeps earlier ones detached |
| Registry.RetiresDetach | World.cs:124-146 | after a sound retirement phase every queued object is in no list |
| Registry.FlushHooks | World.cs:150-162 | FlushQueues runs every OnAdd before every OnRemove, each in queue order, after the existing trace |
| Registry.Know | GameObject.cs:7-12 | the registry learns obj's fields the first time it sees obj and nothing else changes |
| Registry.KnowKeepsSlots | GameObject.cs:7-12 | learning of an object leaves lists, counter, trace and every known object's cache alone, and keeps the slot invariant |
| Registry.AddObject | World.cs:164-171 | an admission request joins the end of the add queue; other queues unchanged |
| Registry.RemoveObject | World.cs:173-176 | a removal request joins the end of the remove queue; other queues unchanged |
| Registry.Tag | World.cs:178-184 | a tag request joins the end of the tag-add queue, whatever obj holds |
| Registry.Untag | World.cs:186-195 | a request for a name obj does not hold changes nothing; otherwise it joins the end of the tag-remove queue |
| Registry.Tagged | World.cs:197-202 | an unknown name has no objects, a known one its list; under the slot invariant the k-th object caches slot k for the name |
| Registry.VisitsInOrder | World.cs:47-61 | a pass visits each listed object once, at its own position, in list order |
| Scene.GameObject.constructor | GameObject.cs:7-12 | a new object holds no slot, no world and id 0 |
| Scene.GameObject.Tag | GameObject.cs:30-33 | an object in a world passes the tag request to it, as Registry.Tag |
| Scene.GameObject.Untag | GameObject.cs:35-38 | an untag request goes to the object's world, as Registry.Untag |
| Scene.GameObject.Remove | GameObject.cs:40-43 | a removal request goes to the object's world, as Registry.RemoveObject |
| Scene.World.constructor | World.cs:32-34 | every list, table and queue empty, ids from 0, and the slot invariant holds |
| Scene.World.GetNextId | World.cs:45 | returns the counter and advances it by one |
| Scene.World.AddTag | World.cs:63-73 | the new state is Registry.AddTag of the old |
| Scene.World.RemoveTag | World.cs:75-95 | the new state is Registry.RemoveTag of the old |
| Scene.World.JoinUpdate | World.cs:105-109 | obj joins the end of the update list and caches its slot |
| Scene.World.JoinDraw | World.cs:111-115 | obj joins the end of the draw list and caches its slot |
| Scene.World.Admit | World.cs:100-117 | the new state is Registry.Admit of the old |
| Scene.World.FlushAddQueue | World.cs:97-120 | the new state is FlushAdmits of the old |
| Scene.World.AdmitAll | World.cs:99-118 | the loop ends in Admits over the whole queue |
| Scene.World.LeaveUpdate | World.cs:128-132 | the new state is DropFromUpdate of the old |
| Scene.World.LeaveDraw | World.cs:134-138 | the new state is DropFromDraw of the old |
| Scene.World.LeaveTags | World.cs:140-143 | the key loop ends in DropTags over the keys obj held at the start |
| Scene.World.Retire | World.cs:124-145 | the new state is Registry.Retire of the old |
| Scene.World.FlushRemoveQueue | World.cs:122-148 | the new state is FlushRetires of the old |
| Scene.World.RetireAll | World.cs:124-146 | the loop ends in Retires over the whole queue |
| Scene.World.FlushTagAdds | World.cs:152-154 | the new state is Registry.FlushTagAdds of the old |
| Scene.World.TagAddAll | World.cs:152-153 | the loop ends in TagAdds over the whole queue |
| Scene.World.FlushTagRemoves | World.cs:156-158 | the new state is Registry.FlushTagRemoves of the old |
| Scene.World.TagRemoveAll | World.cs:156-157 | the loop ends in TagRemoves over the whole queue |
| Scene.World.FlushQueues | World.cs:150-162 | the new state is Registry.FlushQueues of the old, and a sound flush keeps the slot invariant |
| Scene.World.AddObject | World.cs:164-171 | the new state is Registry.AddObject of the old |
| Scene.World.RemoveObject | World.cs:173-176 | the new state is Registry.RemoveObject of the old |
| Scene.World.Tag | World.cs:178-184 | the new state is Registry.Tag of the old |
| Scene.World.Untag | World.cs:186-195 | the new state is Registry.Untag of the old, decided by obj's own tag slots |
| Scene.World.GetTagged | World.cs:197-202 | returns the tag's live list, empty for an unknown name |
| Scene.World.Update | World.cs:47-53 | one OnUpdate per object of the update list, in list order |
| Scene.World.Draw | World.cs:55-61 | one OnDraw per object of the draw list, in list order |
| Vectors.Vec2i.WithW | Vec2.cs:17 | setting W writes X and leaves H |
| Vectors.Vec2i.WithH | Vec2.cs:23 | setting H writes Y and leaves W |
| Vectors.Vec2i.W | Vec2.cs:14-18 | W reads X: rebuilding the vector from W and Y gives it back |
| Vectors.Vec2i.H | Vec2.cs:20-24 | H reads Y: rebuilding the vector from X and H gives it back |
| Vectors.Splat | Vec2.cs:32-36 | both components equal the argument, 0 by default |
| Vectors.Quot | Vec2.cs:44 | C# division: the remainder is smaller than the divisor in magnitude and has the dividend's sign |
| Vectors.QuotMagnitude | Vec2.cs:44 | the truncated quotient is the quotient of the magnitudes, signed |
| Vectors.Rem | AnimatedTexture.cs:63 | C# remainder: smaller than the divisor in magnitude, with the dividend's sign |
| Vectors.QuotNonNegative | Vec2.cs:44 | for a non-negative dividend and positive divisor, C# and Euclidean division agree |
| Vectors.QuotTruncates | Vec2.cs:44 | -7 / 2 is -3 in C#, not -4 |
| Vectors.QuotOdd | Vec2.cs:44 | negating the dividend negates the quotient |
| Vectors.QuotCancels | Vec2.cs:44 | (a * b) / b == a |
| Vectors.Add | Vec2.cs:40 | subtracting either operand from the sum gives the other |
| Vectors.Sub | Vec2.cs:41 | adding rhs back to the difference gives lhs |
| Vectors.Neg | Vec2.cs:42 | the negation is Zero minus the vector, and negating it again gives the vector |
| Vectors.Mul | Vec2.cs:43 | a component of the product is zero exactly when a factor's component is |
| Vectors.Scale | Vec2.cs:45 | scaling by k is the component-wise product with (k, k) |
| Vectors.Div | Vec2.cs:44 | component-wise C# division: each remainder is below the divisor in magnitude and has the dividend's sign |
| Vectors.DivScalar | Vec2.cs:46 | C# division by a scalar: each remainder is below the divisor in magnitude and has the dividend's sign; the same as Div by (k, k) |
| Vectors.AddGroup | Vec2.cs:40-42 | + is commutative and associative with Zero and unary -, and a - b == a + (-b) |
| Vectors.ScaleThenDivide | Vec2.cs:45-46 | (v * k) / k == v |
| Vectors.MulThenDivide | Vec2.cs:43-44 | (u * v) / v == u |
| Vectors.DivideTowardZero | Vec2.cs:42-46 | (-v) / k == -(v / k) |
| Wave.ReadInt16 | Audio/AudioSource.cs:57-62 | a value exists exactly when two bytes remain; it is a signed 16-bit value and the position advances by two |
| Wave.ReadInt32 | Audio/AudioSource.cs:46 | a value exists exactly when four bytes remain; it is a signed 32-bit value and the position advances by four |
| Wave.LoadWave | Audio/AudioSource.cs:38-74 | success only on a well-formed header, with every byte after the 44-byte header as samples; LoadWaveAccepts and LoadEncoded state the rest |
| Wave.LoadWaveAccepts | Audio/AudioSource.cs:38-74 | LoadWave succeeds exactly on a well-formed header and then returns channels at 22, rate at 24, depth at 34 and all bytes after 44 |
| Wave.ShortInputRejected | Audio/AudioSource.cs:38-74 | input shorter than the header always fails |
| Wave.LoadWaveFirstError | Audio/AudioSource.cs:42-68 | the first failing check names the error: RIFF, end of stream, WAVE, fmt, then data |
| Wave.Le16 | Audio/AudioSource.cs:57-62 | the little-endian two's complement encoding is two bytes |
| Wave.Le32 | Audio/AudioSource.cs:46 | the little-endian two's complement encoding is four bytes |
| Wave.Le16Reads | Audio/AudioSource.cs:57-62 | ReadInt16 reads back what Le16 wrote |
| Wave.Le32Reads | Audio/AudioSource.cs:59-60 | ReadInt32 reads back what Le32 wrote |
| Wave.Encode | Audio/AudioSource.cs:38-74 | an encoded file is the 44-byte header followed by the samples |
| Wave.LoadEncoded | Audio/AudioSource.cs:38-74 | LoadWave(Encode(sd, ig)) returns sd, whatever the ignored fields hold |
| Wave.GetALFormat | Audio/AudioSource.cs:21-33 | a format found has exactly the asked channel count and depth; none (a throw) exactly outside 1-2 channels and 8 or 16 bits |
| Wave.GetALFormatInverse | Audio/AudioSource.cs:21-33 | GetALFormat maps (channels, depth) to exactly one format and throws for every other pair |
| Wave.LastMark | Audio/AudioSource.cs:102 | finds the last '.' or separator before n, with none after it |
| Wave.Extension | Audio/AudioSource.cs:102-106 | the extension is empty or a suffix of the path that starts with '.', has more than the dot, and holds no other '.' or separator |
| Wave.ExtensionIsSuffix | Audio/AudioSource.cs:102 | a path has an extension exactly when it ends with it |
| Wave.LoadData | Audio/AudioSource.cs:100-113 | extension .wav goes to LoadWave, .ogg to the Vorbis decoder, anything else gives the silent default |
| Wave.LoadDataDispatch | Audio/AudioSource.cs:100-113 | .wav goes to LoadWave, .ogg to the Vorbis decoder, anything else to 1 channel, 8 bits, 10000 Hz and no samples, a format GetALFormat accepts |
| Textures.Texture2D.Load | Graphics/Texture2D.cs:13-38 | a texture loaded from an image file, not disposed |
| Textures.Texture2D.Solid | Graphics/Texture2D.cs:40-45 | a 1x1 texture of one colour |
| Textures.Texture2D.Dispose | Graphics/Texture2D.cs:58-71 | the texture is deleted once, however often Dispose is called |
| Shaders.Locate | Shader.cs:125-149 | the name is in the table afterwards and the location returned is the one stored |
| Shaders.LocateKnown | Shader.cs:135 | a known name is answered from the table and nothing changes |
| Shaders.LocateUnknown | Shader.cs:127-134 | an unknown name gets -1 and exactly that entry is added |
| Shaders.LocateTwice | Shader.cs:131-133 | asking twice gives the same answer and the second lookup changes nothing |
| Shaders.Shader.constructor | Shader.cs:16-64 | the tables are the program's active attributes and uniforms |
| Shaders.Shader.GetAttributeLocation | Shader.cs:125-137 | location and new table are Locate of the old table; one error for an unknown name |
| Shaders.Shader.GetUniformLocation | Shader.cs:139-149 | location and new table are Locate of the old table; one error for an unknown name |
| Shaders.Shader.Send | Shader.cs:151-191 | the value goes to the uniform's located location |
| Shaders.Shader.Dispose | Shader.cs:77-90 | the program is deleted once |
| Animation.Step | AnimatedTexture.cs:50-57 | the frame advances by one when elapsed and falls back to the start outside [start, end); in a non-empty clip it stays inside |
| Animation.StepInside | AnimatedTexture.cs:50-57 | inside the clip a step moves to the next cell or wraps from the last to the start |
| Animation.StepsCycle | AnimatedTexture.cs:50-57 | from the start, the k-th step shows start + k and end - start steps return to start |
| Animation.CellNumbering | AnimatedTexture.cs:62-64 | a frame's column is in [0, HFrames) and row * HFrames + column == frame |
| Animation.AnimatedTexture.constructor | AnimatedTexture.cs:28-37 | the frame size is the texture size divided, truncating, by the grid; the frame starts at 2 |
| Animation.AnimatedTexture.Animate | AnimatedTexture.cs:43-58 | a known animation steps the frame as Step; an unknown one (a throw) changes nothing |
| Animation.AnimatedTexture.GetRect | AnimatedTexture.cs:60-66 | the rectangle has the frame size |
| Animation.AnimatedTexture.GetWidth | AnimatedTexture.cs:72 | the width of one cell; RectInsideTexture ties it to GetRect |
| Animation.AnimatedTexture.GetHeight | AnimatedTexture.cs:73 | the height of one cell; RectInsideTexture ties it to GetRect |
| Animation.AnimatedTexture.GetTexture | AnimatedTexture.cs:69 | the sheet the frames are cut from |
| Animation.TextureRef.GetTexture | AnimatedTexture.cs:69 | an animated texture resolves to the texture it wraps, a plain one to itself |
| Animation.CellsFit | AnimatedTexture.cs:36 | n cells of the truncated size fit in the size |
| Animation.CellWithin | AnimatedTexture.cs:62-65 | the idx-th cell lies within the length |
| Animation.RowWithin | AnimatedTexture.cs:62-64 | a frame below HFrames * VFrames is in a row below VFrames |
| Animation.RectInsideTexture | AnimatedTexture.cs:60-73 | for a frame of the grid, GetRect lies inside the texture and has GetWidth/GetHeight as size |
| Rendering.VertexOf | Renderer.cs:297-302 | a vertex is 8 floats |
| Rendering.VerticesOf | Renderer.cs:297-320 | n corners give 8n floats |
| Rendering.Raise | Renderer.cs:41-42 | the top never decreases and ends above the index, unless the index equals the top |
| Rendering.ShapeTops | Renderer.cs:288-295 | a quad raises the top by 4 and a line by 2, every added index below the new top |
| Rendering.RaiseAtTop | Renderer.cs:41 | an index equal to the top does not raise it |
| Rendering.BatchRequest.constructor | Renderer.cs:28-35 | a new batch is empty, with top 0 |
| Rendering.BatchRequest.GetTopIndex | Renderer.cs:37 | in an indexed batch the top counts the vertices and lies above every index |
| Rendering.BatchRequest.AddIndex | Renderer.cs:39-44 | start + index is appended and the top becomes Raise of the old top |
| Rendering.BatchRequest.AddVertex | Renderer.cs:46-51 | the vertex's floats are appended in order |
| Rendering.SentMatrices | Renderer.cs:144-146 | the two locations sent are those of "view" and "projection", which the table then holds; every known entry is kept |
| Rendering.Layout | Renderer.cs:237-252 | the three layout locations are those of the position, texture-coordinate and colour attributes, which the table then holds; every known entry is kept |
| Rendering.Renderer.constructor | Renderer.cs:54-88 | white colour; a fresh default shader, which is current, and a fresh colour texture; an invalid empty batch on both; no draw calls; nothing disposed, and nothing deleted |
| Rendering.Renderer.TextureFor | Renderer.cs:164-165 | a null texture stands for the colour texture |
| Rendering.Renderer.GetDrawCalls | Renderer.cs:118 | the count PrepareNextFrame published for the last finished frame |
| Rendering.Renderer.FlushBatch | Renderer.cs:138-158 | an invalid batch changes nothing, shaders included; a valid one becomes invalid, adds one draw call with its contents and the current shader's layout locations, sends the matrices to the batch's shader and counts one draw call; every draw call stays in bounds |
| Rendering.Renderer.SendMatrices | Renderer.cs:144-146 | view then projection are sent to the shader, with one error per unknown name |
| Rendering.Renderer.SetUpVertexFormat | Renderer.cs:229-262 | the three layout locations are looked up on the current shader, with one error per unknown name |
| Rendering.Renderer.RequestBatch | Renderer.cs:160-198 | a valid batch with the same format, texture and shader is reused untouched whatever its primitive type; otherwise a fresh empty batch of the request opens, after a flush exactly when the old batch was valid; shaders change only by that flush |
| Rendering.Renderer.PrepareNextFrame | Renderer.cs:131-136 | flushes, publishes the frame's draw count including that flush, and resets it |
| Rendering.Renderer.SetColor | Renderer.cs:282 | the current colour is set |
| Rendering.Renderer.GetColor | Renderer.cs:283 | the colour SetColor last set |
| Rendering.Renderer.SetShader | Renderer.cs:426-429 | a null shader selects the default |
| Rendering.Renderer.AddQuad | Renderer.cs:288-320 | six quad indices from the old top, four vertices, top + 4, batch stays indexed |
| Rendering.Renderer.AddQuadIndices | Renderer.cs:288-295 | the two triangles of the quad from the old top, and top + 4 |
| Rendering.Renderer.AddCorners | Renderer.cs:297-320 | the corners' vertices in the current colour, in order |
| Rendering.Renderer.Rectangle | Renderer.cs:285-321 | a quad on a colour-texture batch of the current shader: the continued batch keeps its primitive type, a new one is a triangle batch at 0, opened after one flush exactly when the old batch was valid |
| Rendering.Renderer.AddLineIndices | Renderer.cs:326-329 | the two ends of a line from the old top, and top + 2, every index below it |
| Rendering.Renderer.Line | Renderer.cs:323-343 | two indices and two vertices on a colour-texture batch of the current shader: a continued batch keeps its primitive type, a new one is a line batch at 0, opened after one flush exactly when the old batch was valid |
| Rendering.Renderer.RectangleThenLine | Renderer.cs:160-198 | a line drawn right after a rectangle joins its batch with no draw call of its own, so it is drawn as triangles unless the rectangle continued a line batch |
| Rendering.Renderer.DrawTexture | Renderer.cs:351-402 | a quad on a batch of the underlying texture and the current shader: continued, or a new triangle batch at 0 after one flush exactly when the old batch was valid |
| Rendering.Renderer.Dispose | Renderer.cs:95-116 | the default shader and colour texture are disposed on the first call and deleted once however often it is called; later calls change nothing |
| Rendering.AppendInBounds | Renderer.cs:154-157 | appending an in-bounds draw keeps every draw in bounds |
| Rendering.IndexedDrawInBounds | Renderer.cs:148-156 | a batch whose indices are below its top draws within its vertices |
| Audio.Names | PooledAudioSource.cs:26-30 | n consecutive names from `first` |
| Audio.SimpleAudioSource.constructor | Audio/SimpleAudioSource.cs:12-33 | one new source name and one new buffer name |
| Audio.SimpleAudioSource.Play | Audio/SimpleAudioSource.cs:57-60 | plays its one source |
| Audio.SimpleAudioSource.Dispose | Audio/SimpleAudioSource.cs:40-55 | buffer and source are deleted on the first call only |
| Audio.Next | PooledAudioSource.cs:75-77 | the cursor stays in the pool |
| Audio.Rotation | PooledAudioSource.cs:71-78 | k plays use k positions |
| Audio.RotationClosedForm | PooledAudioSource.cs:71-78 | k <= n plays move the cursor k places round the ring |
| Audio.FullRotation | PooledAudioSource.cs:71-78 | n plays use every source exactly once and return the cursor to where it began |
| Audio.PooledAudioSource.constructor | PooledAudioSource.cs:13-31 | one buffer then poolSize consecutive source names, cursor 0 |
| Audio.PooledAudioSource.Play | PooledAudioSource.cs:71-78 | plays the source under the cursor and moves it on; an empty pool (a throw) plays nothing |
| Audio.PooledAudioSource.Dispose | PooledAudioSource.cs:52-69 | the buffer and every source are deleted, in order, on the first call only |
| Assets.FullPath | Content.cs:42 | the key is the assets path followed by the path |
| Assets.FullPathInjective | Content.cs:42 | distinct paths have distinct keys |
| Assets.DisposeAll | Content.cs:28-29 | every cached texture ends disposed exactly once |
| Assets.Content.constructor | Content.cs:11-14 | an empty cache |
| Assets.Content.GetTexture | Content.cs:40-48 | a hit returns the cached texture and changes nothing; a miss loads `path` and caches it under the full key |
| Assets.Content.Dispose | Content.cs:21-38 | the first call disposes every cached texture once; later calls delete nothing |
| Assets.ContentManager.constructor | Content/ContentManager.cs:13-16 | empty caches |
| Assets.ContentManager.LoadTexture | Content/ContentManager.cs:42-50 | a hit returns the cached texture; a miss loads and caches it |
| Assets.ContentManager.LoadAudio | Content/ContentManager.cs:52-66 | a hit returns the cached source whatever the count; a miss makes a simple source for a count <= 1, else a pool of that size |
| Assets.ContentManager.Dispose | Content/ContentManager.cs:23-40 | the first call disposes every cached texture once; audio sources are not disposed |
| Input.AnyPressedIff | InputMap.cs:61-74 | the front-to-back search holds exactly when some binding is pressed |
| Input.AnyPressedAppend | InputMap.cs:36 | with one more binding, the action is down exactly when it was or the new binding is |
| Input.InputMap.constructor | InputMap.cs:22-25 | no actions |
| Input.InputMap.CreateMapping | InputMap.cs:27-49 | the input is appended to the name's list (created on first use, duplicates kept); other names unchanged |
| Input.InputMap.IsDown | InputMap.cs:51-77 | down exactly when the name is known and one of its bindings is pressed; an unknown name logs one error |
| Input.BindingWidens | InputMap.cs:34-36 | after binding, the action is down exactly when it was or the new input is |

## Left out

- GL, OpenAL, file and console I/O are not modelled. GL draw calls and
  OpenAL calls are recorded in ghost traces. Of the error messages, only the
  unknown-attribute and unknown-uniform messages of `Shader.cs` and the
  unknown-action message of `InputMap.cs` are recorded (the `errors` logs of
  `Shaders.Shader` and `Input.InputMap`). Image decoding, the window, the
  framebuffer and the viewport are not modelled.
- Registry.RemoveTag: the message World.cs:79 writes for a name with no list
  is not recorded; the state is returned unchanged.
- Wave.LoadData: the "Unsupported file format" message of
  `Audio/AudioSource.cs:111` is not recorded; the silence fallback is returned.
- The informational messages `AddTag` and `RemoveTag` write to standard output
  (World.cs:72, World.cs:94) are not recorded.
- Floating point is modelled with reals. The transform and UV arithmetic of
  `DrawTexture` and `ApplyTransform` are not modelled: the corners are
  inputs. The animation timer is an input (`elapsed`).
- `World._objects` is never filled, and its `Remove` is a no-op, so it is not
  modelled. `GrabFirstTagged`, `SetProcess` and `SetDraw` are stubs in the
  source and are not modelled.
- The hooks `OnAdd`, `OnRemove`, `OnUpdate` and `OnDraw` are recorded, not run.
  An override that calls back into the world during a flush is not modelled.
- A game object queued into two worlds is not modelled. Its single cache entry
  assumes one world.
- `GetTagged` returns the live list. Later mutation through that alias is not
  modelled.
- Registry.KeyOrder: the enumeration order of a .NET dictionary is chosen
  arbitrarily. `UntagsInAnyOrder` shows the result does not depend on it.
- Vectors.Quot, Vectors.Rem, Vectors.Div and Vectors.DivScalar require a
  non-zero divisor. The DivideByZeroException C# throws for a zero divisor
  (`Vec2.cs:44`, `Vec2.cs:46`) is not modelled.
- Animation.AnimatedTexture.constructor, Animation.Cell and
  Animation.AnimatedTexture.GetRect require non-zero grid sizes. The
  DivideByZeroException of `AnimatedTexture.cs:36` and `AnimatedTexture.cs:63-64`
  is not modelled.
- Vectors: `Vec2i` components are unbounded. The 32-bit wrap-around of C#
  `int` arithmetic, and the OverflowException of `int.MinValue / -1`, are not
  modelled.
- Audio.PooledAudioSource.constructor takes a `nat` pool size. The exception
  `new int[poolSize]` throws for a negative size (`PooledAudioSource.cs:26`) is
  not modelled.
- Rendering.BatchRequest.AddIndex: does not model 32-bit `uint` wrap-around of the
  index, because the indices used are tiny. Other `int` fields (ids, draw
  counts) are unbounded too.
- `LoadOgg` (the Vorbis decoder) is an input to `LoadData`.
- `ReadChars` is modelled for single-byte characters only.
- The audio source constructors do not model loading and uploading the sound
  (`LoadData`, `GetALFormat`, `AL.BufferData`); Wave models those
  separately.
- The audio source settings (pitch, gain, position, velocity, looping) are not
  modelled.
- Texture2D.Load: the size of a loaded image is unspecified.
- `AnimatedTexture` wraps a `Texture2D` only, not another wrapping texture.
  Wrap and filter modes are not modelled.
- Shader compilation and linking are not modelled: the active tables are
  inputs.
- The values sent with `Send` are not modelled, nor is `Send<T>` for an
  unsupported type, which only prints.
- `SetRenderTarget`, `OnFramebufferResized`, `Clear` and `SetViewPosition`
  (GL and matrix state) are not modelled.
- Finalizers are not modelled. The `disposing == false` path of
  `Content.Dispose` and `ContentManager.Dispose` is not modelled.
- `ToString` is not modelled.
