# Veil framebuffer registry, modelled in Dafny

Veil's `FramebufferManager` keeps the named off-screen framebuffers of a
Minecraft client. It holds three collections: the framebuffer definitions of
the last resource reload, the live buffers by name, and a set of names whose
buffers are "static" (managed by their owner). It builds a buffer for every
definition when the window is resized or resources are reloaded. It clears
every non-static buffer each frame and releases buffers on `free`.
`FRAMEBUFFER_CODEC` turns a framebuffer name into a resource location and back.

The repository has two variants of the manager, and both are modelled:

- `foundry.veil.framebuffer.FramebufferManager` (module `PrebuiltFramebuffers`).
  Here `addStatic(name, fbo)` takes a buffer built by its owner. It
  initialises that buffer, installs it, releases the buffer it displaces, and
  marks the name static. Definitions are built at a pixel size.
- `foundry.veil.render.framebuffer.FramebufferManager` (module `RenderFramebuffers`).
  Here `addStatic(name)` only marks a name static. Definitions are built from
  a Molang runtime whose `screen_width` and `screen_height` queries hold the
  window size.

Files:

- `wrappers.dfy`: `Option` and `Result`.
- `locations.dfy`: the part of `ResourceLocation` the codec relies on.
- `codec.dfy`: `FRAMEBUFFER_CODEC`. The text of the codec is the same in both variants.
- `registry.dfy`: what both variants share, namely:
  - the handle class `Fbo`;
  - the trace of graphics calls;
  - the bookkeeping predicates and the lemmas about a build, clear or free pass.
- `prebuilt_manager.dfy`, `render_manager.dfy`: the two manager classes.
  Each file also has two small client methods that state properties across
  several calls.

How the model represents the system:

- **Buffers.** An `AdvancedFbo` is an object of class `Fbo`. Object identity
  stands for Java identity. Its two constants record the definition and the
  build context it was built from.
- **Building.** `FramebufferDefinition.createBuilder(..).build(true)` is the
  parameter `builds: (Definition, BuildContext) -> bool`. It is true when the
  build returns a buffer, which is a fresh `Fbo`, and false when the build
  throws. The source catches that exception, logs it and skips the definition.
- **Releases.** Every `AdvancedFbo.free` call is appended to the field
  `released`.
- **Graphics calls.** Every call into the graphics state is appended to the
  field `gl`: `RenderSystem.clearColor`, `bindDraw`, `clear`, `unbind` and
  `unbindDraw`.
- **HashMap order.** The iteration order of a `HashMap` or `HashSet` is
  unspecified. Each loop therefore picks any pending name, and the method
  returns the order it used as a ghost sequence (`freed`, `built`,
  `cleared`). `Enumerates(order, names)` says that this order lists every
  name exactly once.
- **Ownership.** `Owned` is the discipline the registry keeps:
  - no buffer is released twice;
  - no buffer is installed under two names;
  - no installed buffer has been released.

  Each operation proves that it keeps this discipline when it held before,
  with one exception: `addStatic` in the first variant keeps it only when the
  buffer it is handed is new to the registry (neither installed nor already
  released), because installing a buffer that is already present puts it
  under two names or revives a released one. No operation demands the
  discipline, because the source does not check it.

## Model

| member | source | states |
|---|---|---|
| ResourceLocations.Make | Common/src/main/java/foundry/veil/framebuffer/FramebufferManager.java:38 | constructing a location from a namespace and a path succeeds exactly when neither part holds ':'; the result keeps the path and the namespace, except that an empty namespace becomes `minecraft` |
| ResourceLocations.Parse | Common/src/main/java/foundry/veil/framebuffer/FramebufferManager.java:41 | parsing splits at the first ':': the path is the text after it and the namespace the text before it, or `minecraft` when that text is empty or there is no ':'; it fails exactly when the path holds another ':'; every success is well-formed |
| ResourceLocations.IndexOf | Common/src/main/java/foundry/veil/framebuffer/FramebufferManager.java:41 | the position of the first occurrence of a character, -1 exactly when the character is absent |
| FramebufferCodec.Decode | Common/src/main/java/foundry/veil/framebuffer/FramebufferManager.java:35-44 | a name without ':' decodes to that path in the `temp` namespace; a name with ':' decodes by splitting at the first ':' (an empty namespace becoming `minecraft`); decoding fails exactly when the name holds two ':' and then reports the "Not a valid resource location" message; every success is well-formed |
| FramebufferCodec.BareAndLeadingSeparator | Common/src/main/java/foundry/veil/framebuffer/FramebufferManager.java:37-41 | `x` decodes to `temp:x` but `:x` decodes to `minecraft:x` |
| FramebufferCodec.Encode | Common/src/main/java/foundry/veil/framebuffer/FramebufferManager.java:45 | the written form of a well-formed location holds ':' exactly when its namespace is not `temp` |
| FramebufferCodec.SecondSeparator | Common/src/main/java/foundry/veil/framebuffer/FramebufferManager.java:41-43 | a name with ':' fails to parse exactly when the part after its first ':' holds another ':' |
| FramebufferCodec.DecodeEncode | Common/src/main/java/foundry/veil/framebuffer/FramebufferManager.java:35-45 | round trip: every well-formed location encodes to a name that decodes back to it |
| FramebufferCodec.EncodeDecode | Common/src/main/java/foundry/veil/render/framebuffer/FramebufferManager.java:35-45 | the codec is stable: re-decoding the written form of a decoded name gives the same location, and the written form equals the input exactly when the input neither spelled out `temp:` nor left the namespace empty |
| Registry.Displaced | Common/src/main/java/foundry/veil/framebuffer/FramebufferManager.java:95-99 | a put or remove on a key releases at most one buffer: the one held under that key, and nothing when the key is absent |
| Registry.BindAndClear | Common/src/main/java/foundry/veil/framebuffer/FramebufferManager.java:63-66 | initialising buffers in turn issues, for the i-th buffer, bindDraw(false) at position 2i and clear at position 2i+1 |
| Registry.ClearedByBindAndClear | Common/src/main/java/foundry/veil/framebuffer/FramebufferManager.java:122-127 | a buffer is cleared by such a sequence of calls exactly when it is one of the buffers visited |
| Registry.ClearCalls | Common/src/main/java/foundry/veil/framebuffer/FramebufferManager.java:120-129 | after a per-frame clear no buffer is bound for drawing |
| Registry.EnumerationSize | Common/src/main/java/foundry/veil/framebuffer/FramebufferManager.java:162 | one pass over a set visits as many entries as the set has |
| Registry.HandlesDistinct | Common/src/main/java/foundry/veil/framebuffer/FramebufferManager.java:162 | under the ownership discipline, the buffers of distinct names are distinct and none was released before |
| Registry.HandlesMembership | Common/src/main/java/foundry/veil/framebuffer/FramebufferManager.java:161-162 | in an injective map, an entry's buffer is visited exactly when its name is |
| Registry.ReleaseDynamic | Common/src/main/java/foundry/veil/framebuffer/FramebufferManager.java:159-165 | freeing the non-static entries releases each of their buffers once, no static entry's buffer, nothing released before, and as many buffers as there are non-static entries |
| Registry.ReleasePassStep | Common/src/main/java/foundry/veil/render/framebuffer/FramebufferManager.java:150 | each step of free's loop releases the next entry's buffer and records its name |
| Registry.ReleasePassDone | Common/src/main/java/foundry/veil/render/framebuffer/FramebufferManager.java:147-153 | a finished free pass has visited every non-static name and, under the discipline, leaves an empty registry with no buffer released twice |
| Registry.ClearPassStep | Common/src/main/java/foundry/veil/framebuffer/FramebufferManager.java:122-127 | each step of the per-frame clear clears a non-static entry's buffer and skips a static one |
| Registry.ClearDynamic | Common/src/main/java/foundry/veil/render/framebuffer/FramebufferManager.java:110-119 | in an injective map, the per-frame clear clears an entry's buffer exactly when that entry is not static |
| Registry.InstallKeepsOwnership | Common/src/main/java/foundry/veil/framebuffer/FramebufferManager.java:90-102 | installing a buffer new to the registry and releasing the one it displaces keeps the ownership discipline |
| Registry.InjectiveInstall | Common/src/main/java/foundry/veil/framebuffer/FramebufferManager.java:76 | installing a buffer held under no name keeps the map free of a buffer under two names |
| Registry.RemoveKeepsOwnership | Common/src/main/java/foundry/veil/framebuffer/FramebufferManager.java:109-115 | removing an entry and releasing its buffer keeps the ownership discipline |
| Registry.RebuiltInstall | Common/src/main/java/foundry/veil/framebuffer/FramebufferManager.java:74-76 | installing a new buffer built from a pending definition extends the rebuilt part of the registry by that definition |
| Registry.PassInstall | Common/src/main/java/foundry/veil/framebuffer/FramebufferManager.java:75-76 | installing under a new name extends the visit order by that name and the calls by that buffer's initialisation |
| Registry.BuildPassInstall | Common/src/main/java/foundry/veil/framebuffer/FramebufferManager.java:73-76 | a build that returns a buffer moves the pass one definition on: the buffer is installed and initialised |
| Registry.BuildPassSkip | Common/src/main/java/foundry/veil/framebuffer/FramebufferManager.java:77-79 | a build that throws moves the pass one definition on and changes nothing else |
| Registry.BuildPassDone | Common/src/main/java/foundry/veil/framebuffer/FramebufferManager.java:72-80 | a finished build pass has built every definition whose build returns, and only those |
| PrebuiltFramebuffers.FramebufferManager.constructor | Common/src/main/java/foundry/veil/framebuffer/FramebufferManager.java:55-61 | a new manager has no definitions, buffers or static names, and keeps the ownership discipline |
| PrebuiltFramebuffers.FramebufferManager.Init | Common/src/main/java/foundry/veil/framebuffer/FramebufferManager.java:63-66 | init binds the buffer for drawing without setting the viewport, then clears it; the buffer is left bound |
| PrebuiltFramebuffers.FramebufferManager.Free | Common/src/main/java/foundry/veil/framebuffer/FramebufferManager.java:159-165 | free empties map and static set; it releases the buffers of exactly the non-static entries, once each in map order, and no static entry's buffer; it keeps the discipline |
| PrebuiltFramebuffers.FramebufferManager.ResizeFramebuffers | Common/src/main/java/foundry/veil/framebuffer/FramebufferManager.java:68-82 | resize frees as free does, so no name stays static. Then exactly the definitions whose build at the new size returns get an entry, each a freshly allocated buffer of its own built from that definition. The calls are clearColor, then init of each buffer in visit order, then unbind. It keeps the discipline |
| PrebuiltFramebuffers.FramebufferManager.BuildAll | Common/src/main/java/foundry/veil/framebuffer/FramebufferManager.java:71-81 | the build part of resize: definitions whose build returns get freshly allocated buffers, the others are skipped, and the calls end with every binding reset |
| PrebuiltFramebuffers.FramebufferManager.BuildEach | Common/src/main/java/foundry/veil/framebuffer/FramebufferManager.java:72-80 | the forEach over the definitions visits each once and leaves them all rebuilt |
| PrebuiltFramebuffers.FramebufferManager.BuildEntry | Common/src/main/java/foundry/veil/framebuffer/FramebufferManager.java:73-79 | one definition: on a returned build a fresh buffer is initialised and installed under its name; on a throw nothing changes |
| PrebuiltFramebuffers.FramebufferManager.AddStatic | Common/src/main/java/foundry/veil/framebuffer/FramebufferManager.java:90-102 | a missing buffer is refused with no change. Otherwise the buffer is initialised and left bound, installed under the name, and the buffer it displaces is released. The name becomes static. Ownership is kept when the buffer is new to the registry |
| PrebuiltFramebuffers.FramebufferManager.RemoveStatic | Common/src/main/java/foundry/veil/framebuffer/FramebufferManager.java:109-115 | the entry leaves the map and its buffer, if any, is released; an absent name changes nothing; the static set is untouched; the discipline is kept |
| PrebuiltFramebuffers.FramebufferManager.Clear | Common/src/main/java/foundry/veil/framebuffer/FramebufferManager.java:120-129 | the per-frame clear sets transparent black and clears each non-static buffer once, in map order. With no buffer under two names, a buffer is cleared exactly when its entry is not static. Nothing is left bound for drawing |
| PrebuiltFramebuffers.FramebufferManager.GetFramebuffer | Common/src/main/java/foundry/veil/framebuffer/FramebufferManager.java:137-139 | the buffer under the name, or none exactly when the name has no entry |
| PrebuiltFramebuffers.FramebufferManager.GetFramebuffers | Common/src/main/java/foundry/veil/framebuffer/FramebufferManager.java:144-146 | the view agrees with getFramebuffer on every name |
| PrebuiltFramebuffers.FramebufferManager.Apply | Common/src/main/java/foundry/veil/framebuffer/FramebufferManager.java:148-157 | a reload replaces the definitions wholesale with the new data, then resizes to the window: all that resize promises, for the new definitions |
| PrebuiltFramebuffers.AddStaticThenResize | Common/src/main/java/foundry/veil/framebuffer/FramebufferManager.java:159-165 | statics do not survive a resize: a buffer added as static is, after the next resize, neither installed nor released, and its name holds a rebuilt buffer exactly when its definition builds |
| PrebuiltFramebuffers.ResizeThenAddStatic | Common/src/main/java/foundry/veil/framebuffer/FramebufferManager.java:159-165 | a buffer its owner built before a resize can be handed over as static after it and the discipline still holds, because every rebuilt buffer is new; the buffer is installed under its name and that name is the only static one |
| PrebuiltFramebuffers.RemoveStaticTwice | Common/src/main/java/foundry/veil/framebuffer/FramebufferManager.java:109-115 | two removeStatic calls on a name act as one: the entry is removed and its buffer released once; the static set, the definitions and the graphics trace are unchanged |
| RenderFramebuffers.ScreenRuntime | Common/src/main/java/foundry/veil/render/framebuffer/FramebufferManager.java:66-69 | the runtime has exactly the queries screen_width and screen_height, holding the new width and height |
| RenderFramebuffers.FramebufferManager.constructor | Common/src/main/java/foundry/veil/render/framebuffer/FramebufferManager.java:55-61 | a new manager has no definitions, buffers or static names, and keeps the ownership discipline |
| RenderFramebuffers.FramebufferManager.Free | Common/src/main/java/foundry/veil/render/framebuffer/FramebufferManager.java:147-153 | free empties map and static set; it releases the buffers of exactly the non-static entries, once each in map order, and no static entry's buffer; it keeps the discipline |
| RenderFramebuffers.FramebufferManager.ResizeFramebuffers | Common/src/main/java/foundry/veil/render/framebuffer/FramebufferManager.java:63-83 | resize frees as free does, so no name stays static. Then exactly the definitions whose build from the screen-size runtime returns get an entry, each a freshly allocated buffer of its own. The calls are clearColor, then bindDraw(false) and clear of each buffer in visit order, then unbind. It keeps the discipline |
| RenderFramebuffers.FramebufferManager.BuildAll | Common/src/main/java/foundry/veil/render/framebuffer/FramebufferManager.java:71-82 | the build part of resize: definitions whose build returns get freshly allocated buffers, the others are skipped, and the calls end with every binding reset |
| RenderFramebuffers.FramebufferManager.BuildEach | Common/src/main/java/foundry/veil/render/framebuffer/FramebufferManager.java:72-81 | the forEach over the definitions visits each once and leaves them all rebuilt |
| RenderFramebuffers.FramebufferManager.BuildEntry | Common/src/main/java/foundry/veil/render/framebuffer/FramebufferManager.java:73-80 | one definition: on a returned build a fresh buffer is bound, cleared and installed under its name; on a throw nothing changes |
| RenderFramebuffers.FramebufferManager.AddStatic | Common/src/main/java/foundry/veil/render/framebuffer/FramebufferManager.java:90-92 | only the static set changes, by adding the name; nothing is built, installed or released |
| RenderFramebuffers.FramebufferManager.RemoveStatic | Common/src/main/java/foundry/veil/render/framebuffer/FramebufferManager.java:99-104 | the entry leaves the map and its buffer, if any, is released; an absent name changes nothing; the static set is untouched; the discipline is kept |
| RenderFramebuffers.FramebufferManager.Clear | Common/src/main/java/foundry/veil/render/framebuffer/FramebufferManager.java:110-119 | the per-frame clear sets transparent black and clears each non-static buffer once, in map order. With no buffer under two names, a buffer is cleared exactly when its entry is not static. Nothing is left bound for drawing |
| RenderFramebuffers.FramebufferManager.GetFramebuffer | Common/src/main/java/foundry/veil/render/framebuffer/FramebufferManager.java:127-129 | the buffer under the name, or none exactly when the name has no entry |
| RenderFramebuffers.FramebufferManager.GetFramebuffers | Common/src/main/java/foundry/veil/render/framebuffer/FramebufferManager.java:134-136 | the view agrees with getFramebuffer on every name |
| RenderFramebuffers.FramebufferManager.Apply | Common/src/main/java/foundry/veil/render/framebuffer/FramebufferManager.java:138-145 | a reload replaces the definitions wholesale with the new data, then resizes to the window: all that resize promises, for the new definitions |
| RenderFramebuffers.AddStaticThenResize | Common/src/main/java/foundry/veil/render/framebuffer/FramebufferManager.java:147-153 | a buffer the registry built and that is then marked static is leaked by the next resize: afterwards it is neither installed nor released |
| RenderFramebuffers.RemoveStaticTwice | Common/src/main/java/foundry/veil/render/framebuffer/FramebufferManager.java:99-104 | two removeStatic calls on a name act as one: the entry is removed and its buffer released once; the static set, the definitions and the graphics trace are unchanged |

### Where the code and its documentation differ

The model follows the code in each of these cases:

- **Statics do not survive a resize.** The documentation of `addStatic` says
  that static buffers are freed and cleared by their owner. But
  `resizeFramebuffers` starts with `free()`, which drops every static entry
  from the map and empties the static set. After a resize or a reload, no
  name is static, and a static buffer is no longer reachable through the
  registry. See `AddStaticThenResize` in both modules.
- **`removeStatic` never touches the static set.** A removed name stays
  static until the next `free`. It removes and releases any entry under the
  name, static or not.
- **Static names need not have entries.** In the render variant,
  `addStatic(name)` marks any name, built or not. A name marked static after
  the registry built its buffer makes the next `free` drop that buffer
  without releasing it. See `RenderFramebuffers.AddStaticThenResize`.
- **`addStatic` can release the buffer it installs.** In the prebuilt
  variant, calling `addStatic` again with the buffer already installed under
  the same name makes `put` return that same buffer. The buffer is then
  released while it stays installed. The model reproduces this, which is why
  `AddStatic` promises the discipline only for a buffer new to the registry.

## Left out

- ResourceLocation's character rules (lower-case letters, digits and `_-./`)
  are left out. A location here is valid when neither part holds ':' and the
  namespace is not empty. An empty namespace becomes `minecraft`. Names that
  Minecraft rejects for other characters decode successfully in this model.
- FramebufferCodec.Decode: the failure message stops after the offending
  name. The exception detail that the source appends after it comes from
  `ResourceLocationException`, which is not part of this model.
- Logging (the overwrite warning, the build-failure error, the "Loaded N
  framebuffers" line) has no effect on state and is left out.
- The contents of a `FramebufferDefinition` and `AdvancedFbo`, and the Molang
  evaluation of a definition's size expressions, are left out. The outcome of
  a build is the parameter `builds`.
- The model assumes `bindDraw`, `clear`, `put` and `free` never throw;
  only the build can fail. In the source the `try` of the build pass also
  covers `init` (or `bindDraw` and `clear`) and `put`, so an exception there
  would be caught after the buffer was built, leaving it neither installed
  nor freed. That leak is not captured by the model.
- `Minecraft.getInstance().getWindow()` in `apply` is left out. The window
  size is passed in as parameters.
- The resource-reload plumbing inherited from `CodecReloadListener` is left
  out: decoding the JSON files under `pinwheel/framebuffers` and the resource
  manager and profiler. `Apply` receives the decoded map.
- Molang query values are integers. The source passes the `int` window size,
  and the runtime stores it as a float.
- RenderFramebuffers.FramebufferManager.GetFramebuffers and
  PrebuiltFramebuffers.FramebufferManager.GetFramebuffers return the current
  map. The source returns an unmodifiable live view. The view would observe
  later changes, and that aliasing is not modelled.
- A null name is not representable. In the prebuilt variant a null name
  throws from `requireNonNull` before any change, and a null buffer passed to
  `addStatic` is modelled as a refusal with no change.
- Concurrency is left out. The source only runs on the render thread.
