# GVRLightBase, modelled in Dafny

`GVRLightBase` is the base class of GearVRf's lights. A light is a component that can be attached to a scene object.
Its uniforms (`enabled`, `world_position`, `world_direction`, and whatever a subclass adds) live in a native light object. The Java class does four things:

- it guards the writes it forwards to the native uniforms;
- it registers itself as a draw-frame listener when `setOwnerObject` gives it an owner (a light built with a parent does not register, see "## Findings");
- on every frame it copies the owner's world pose into its world uniforms, writing only values that changed;
- it turns its uniform descriptor, such as `"float enabled float3 world_position float3 world_direction"`, into a GLSL `struct` declaration.

The project has four modules:

- `Wrappers` (wrappers.dfy): `Option` stands for a Java reference that may be null, and `Result` for a call that may throw.
- `ShaderStruct` (shader_struct.dfy): the descriptor scanner and the struct serialiser.
  - The regular expression `[ ]*([fFiI][loatn]+)([0-9]*)[ ]+([A-Za-z0-9_]+)[,;:]*` is run the way `java.util.regex.Matcher.find()` runs it. The leftmost match wins, and the next search resumes at the end of the previous match. This holds for any descriptor, not only well-formed ones.
  - `MatchAt` tries the pattern at one position. It takes every piece greedily. This loses nothing, because neighbouring pieces of the pattern have disjoint character classes; `MatchAtSound` and `MatchAtComplete` prove it.
  - `FindFrom` is `find()`, `Scan` collects the entries of all matches in order, and `StructText` is the struct text they give.
  - The method `GetShaderStruct` is the source's `while (matcher.find())` loop. It appends to an accumulator and is proved equal to `StructText`.
- `Uniforms` (uniforms.dfy): the native uniform store.
  - The store is one dictionary per uniform kind: floats, 3-vectors and 4-vectors.
  - The setters' argument checks become pure functions on a store (`PutFloat`, `PutVec3`, `PutVec4`). The getters are `FloatOf`, `Vec3Of` and `Vec4Of`.
  - `DrawFrame` is what `onDrawFrame` does to the store.
  - Java floats are `Finite(real) | NaN | Infinite`, with Java's `!=` and `<=` written out.
- `Lights` (lights.dfy): the class `LightBase`.
  - Its fields are the owner, the native parent handle, a registration count in the context's listener list, the uniform store and the uniform descriptor.
  - Its methods update these fields in place, and each method's `ensures` ties the new state to the functions of `Uniforms` and `ShaderStruct`.
  - `Valid()` is the invariant "registered exactly when attached, and the native parent is the owner's handle (0 when detached)". Every operation that changes the owner keeps it.

## Model

| member | source | states |
|---|---|---|
| ShaderStruct.SpanMaximal | GVRf/Framework/framework/src/main/java/org/gearvrf/GVRLightBase.java:289 | the greedy run of one character class taken by a pattern piece is all of that class and cannot be extended |
| ShaderStruct.SpanIs | GVRf/Framework/framework/src/main/java/org/gearvrf/GVRLightBase.java:289 | a maximal run of a class is unique: any run that stops at a character outside the class is the greedy one |
| ShaderStruct.MatchAt | GVRf/Framework/framework/src/main/java/org/gearvrf/GVRLightBase.java:289 | a match found at p starts at p, is non-empty and lies inside the descriptor |
| ShaderStruct.MatchAtSound | GVRf/Framework/framework/src/main/java/org/gearvrf/GVRLightBase.java:289 | whatever MatchAt returns is a match of the pattern at that position, with a greedy name group and trailer |
| ShaderStruct.MatchAtComplete | GVRf/Framework/framework/src/main/java/org/gearvrf/GVRLightBase.java:289 | whenever the pattern can match at a position, MatchAt matches there with the same type, size and gap and a name at least as long |
| ShaderStruct.FindFrom | GVRf/Framework/framework/src/main/java/org/gearvrf/GVRLightBase.java:292 | find() from p returns a non-empty match that starts at or after p |
| ShaderStruct.FindFromLeftmost | GVRf/Framework/framework/src/main/java/org/gearvrf/GVRLightBase.java:292 | find() fails exactly when the pattern matches nowhere from p on; otherwise it returns the match at the first position where the pattern matches |
| ShaderStruct.Scan | GVRf/Framework/framework/src/main/java/org/gearvrf/GVRLightBase.java:292-308 | the entries of the successive find() matches, in order; there are never more entries than characters, since every match consumes at least one |
| ShaderStruct.StructText | GVRf/Framework/framework/src/main/java/org/gearvrf/GVRLightBase.java:291-309 | the struct text always starts with "struct Struct" + class name + " {\n" and always ends with "};\n" |
| ShaderStruct.GlslType | GVRf/Framework/framework/src/main/java/org/gearvrf/GVRLightBase.java:298-306 | an unsized entry keeps its own type text; a sized entry becomes "   ivec" followed by its size when its type starts with i or I, and "   vec" followed by its size otherwise |
| ShaderStruct.FieldLine | GVRf/Framework/framework/src/main/java/org/gearvrf/GVRLightBase.java:298-307 | an entry's line is its GLSL type, then a space, its name and ";\n", with nothing added in between (its length is exactly the sum of those parts) |
| ShaderStruct.GetShaderStruct | GVRf/Framework/framework/src/main/java/org/gearvrf/GVRLightBase.java:287-311 | the find() loop with its string accumulator returns exactly the struct text of the descriptor: header, one field line per match in match order, footer |
| ShaderStruct.ScanShift | GVRf/Framework/framework/src/main/java/org/gearvrf/GVRLightBase.java:289-308 | scanning never looks behind its position: from position d of a text it finds the same entries as the text's suffix from d does on its own |
| ShaderStruct.SkipsJunk | GVRf/Framework/framework/src/main/java/org/gearvrf/GVRLightBase.java:289-308 | text that cannot start a type group is skipped silently: put in front of a descriptor, it adds no entry and removes none |
| ShaderStruct.NoTypeHeadEmptyStruct | GVRf/Framework/framework/src/main/java/org/gearvrf/GVRLightBase.java:291-309 | a descriptor with no f, F, i or I (the empty one included) has no entries, and its struct is the header directly followed by the footer |
| ShaderStruct.NoMatchEmptyStruct | GVRf/Framework/framework/src/main/java/org/gearvrf/GVRLightBase.java:291-309 | when the first find() fails, the struct is the header directly followed by the footer |
| ShaderStruct.ScanJoin | GVRf/Framework/framework/src/main/java/org/gearvrf/GVRLightBase.java:289-308 | scanning the space-separated text of well-formed entries gives back exactly those entries, in order |
| Lights.DefaultDescriptorScans | GVRf/Framework/framework/src/main/java/org/gearvrf/GVRLightBase.java:56 | the default descriptor gives exactly three entries: (float, "", enabled), (float, 3, world_position), (float, 3, world_direction) |
| Lights.DefaultShaderStruct | GVRf/Framework/framework/src/main/java/org/gearvrf/GVRLightBase.java:287-311 | the default descriptor's struct holds exactly `float enabled;`, `   vec3 world_position;` and `   vec3 world_direction;`, in that order, between header and footer |
| Lights.LightBase.GetShaderStruct | GVRf/Framework/framework/src/main/java/org/gearvrf/GVRLightBase.java:287-311 | getShaderStruct renders the light's own descriptor, and a light that still has the default descriptor gets the three-field struct |
| Uniforms.Differs | GVRf/Framework/framework/src/main/java/org/gearvrf/GVRLightBase.java:378 | Java's float `!=`: two values differ exactly when they are not the same value or the first is NaN |
| Uniforms.Vec3Differs | GVRf/Framework/framework/src/main/java/org/gearvrf/GVRLightBase.java:378-382 | the cached and new vectors differ in some component exactly when they are not equal or the cached one holds a NaN |
| Uniforms.AtMostZero | GVRf/Framework/framework/src/main/java/org/gearvrf/GVRLightBase.java:362 | Java's `<= 0.0f`: NaN is never at most zero, so a NaN "enabled" leaves the light on; negative infinity is at most zero, positive infinity is not, and a finite value is when it is not positive |
| Uniforms.FloatOf | GVRf/Framework/framework/src/main/java/org/gearvrf/GVRLightBase.java:197-200 | reading a float uniform succeeds exactly when it is in the store; otherwise it fails naming the key |
| Uniforms.Vec3Of | GVRf/Framework/framework/src/main/java/org/gearvrf/GVRLightBase.java:229-232 | reading a vec3 uniform succeeds exactly when it is in the store; otherwise it fails naming the key |
| Uniforms.Vec4Of | GVRf/Framework/framework/src/main/java/org/gearvrf/GVRLightBase.java:259-262 | reading a vec4 uniform succeeds exactly when it is in the store; otherwise it fails naming the key |
| Uniforms.ValidKey | GVRf/Framework/framework/src/main/java/org/gearvrf/GVRLightBase.java:215 | checkStringNotNullOrEmpty, which setFloat, setVec3 and setVec4 (lines 215, 246, 276) apply to the key: a key passes exactly when it is non-null and not empty |
| Uniforms.PutFloat | GVRf/Framework/framework/src/main/java/org/gearvrf/GVRLightBase.java:213-218 | a null or empty key is rejected first, then a NaN or infinite value; a write that passes both is read back as written, and no other uniform changes |
| Uniforms.PutVec3 | GVRf/Framework/framework/src/main/java/org/gearvrf/GVRLightBase.java:244-248 | a null or empty key is rejected; any other write is read back as written, and no other uniform changes |
| Uniforms.PutVec4 | GVRf/Framework/framework/src/main/java/org/gearvrf/GVRLightBase.java:274-278 | a null or empty key is rejected; any other write is read back as written, and no other uniform changes |
| Uniforms.PutFloatLastWins | GVRf/Framework/framework/src/main/java/org/gearvrf/GVRLightBase.java:213-218 | two float writes to one key leave the store as the second write alone would |
| Uniforms.PutVec3Same | GVRf/Framework/framework/src/main/java/org/gearvrf/GVRLightBase.java:244-248 | writing back the value a vec3 uniform already holds leaves the store unchanged |
| Uniforms.DefaultsBySetters | GVRf/Framework/framework/src/main/java/org/gearvrf/GVRLightBase.java:57-59 | the constructors' three writes pass the setters' checks and leave enabled = 1, world_position = (0, 0, 0), world_direction = (0, 0, 1) |
| Uniforms.Switched | GVRf/Framework/framework/src/main/java/org/gearvrf/GVRLightBase.java:96-109 | enable and disable write 1 or 0 to "enabled" through setFloat; afterwards onDrawFrame's `enabled <= 0` test holds exactly for a disabled light |
| Uniforms.Refresh | GVRf/Framework/framework/src/main/java/org/gearvrf/GVRLightBase.java:378-385 | given the value cached in a world uniform, the uniform afterwards holds the new value and no other uniform changes; the setVec3 write happens, once, unless the cached and new values are equal and free of NaN, and a skipped write leaves the store as it was |
| Uniforms.DrawFrame | GVRf/Framework/framework/src/main/java/org/gearvrf/GVRLightBase.java:360-386 | onDrawFrame throws exactly when "enabled" is missing, or the light is on and attached and a world uniform is missing; a throwing frame writes nothing |
| Uniforms.DrawFrameIdle | GVRf/Framework/framework/src/main/java/org/gearvrf/GVRLightBase.java:362 | a light that is off or not attached neither throws past the "enabled" read nor writes anything |
| Uniforms.DisabledFrameIsIdle | GVRf/Framework/framework/src/main/java/org/gearvrf/GVRLightBase.java:105-109 | after disable(), a frame changes nothing, whatever the owner and pose |
| Uniforms.DrawFrameWrites | GVRf/Framework/framework/src/main/java/org/gearvrf/GVRLightBase.java:378-385 | a live frame writes the direction exactly when it differs, then the position exactly when it differs; afterwards both hold the new pose and every other uniform is unchanged |
| Uniforms.DrawFrameSettles | GVRf/Framework/framework/src/main/java/org/gearvrf/GVRLightBase.java:378-385 | a second frame with the same NaN-free pose writes nothing |
| Lights.LightBase.constructor | GVRf/Framework/framework/src/main/java/org/gearvrf/GVRLightBase.java:62-69 | a light made without a parent is detached, unregistered, has the default uniforms and the default descriptor |
| Lights.LightBase.WithParentAsWritten | GVRf/Framework/framework/src/main/java/org/gearvrf/GVRLightBase.java:49-60 | a light made with a parent stores it and points the native parent at it, but is not registered, so it starts outside the invariant |
| Lights.LightBase.WithParent | GVRf/Framework/framework/src/main/java/org/gearvrf/GVRLightBase.java:49-60 | the constructor with a parent, registering when the parent is non-null, starts inside the invariant with the default uniforms |
| Lights.LightBase.SetDefaults | GVRf/Framework/framework/src/main/java/org/gearvrf/GVRLightBase.java:57-59 | the constructors' three setter calls on a new native light leave exactly the default uniforms |
| Lights.LightBase.SetOwnerObject | GVRf/Framework/framework/src/main/java/org/gearvrf/GVRLightBase.java:71-91 | no change for the same owner; registration only on null to non-null, unregistration only on non-null to null; the native parent is the new owner's handle or 0; the invariant is kept |
| Lights.LightBase.Enable | GVRf/Framework/framework/src/main/java/org/gearvrf/GVRLightBase.java:96-100 | "enabled" becomes 1, through setFloat's checks |
| Lights.LightBase.Disable | GVRf/Framework/framework/src/main/java/org/gearvrf/GVRLightBase.java:105-109 | "enabled" becomes 0, through setFloat's checks |
| Lights.LightBase.GetPosition | GVRf/Framework/framework/src/main/java/org/gearvrf/GVRLightBase.java:119-121 | the position is the "world_position" uniform, when there is one |
| Lights.LightBase.SetPosition | GVRf/Framework/framework/src/main/java/org/gearvrf/GVRLightBase.java:136-138 | the position is written as the "world_position" uniform, whose key always passes the check |
| Lights.LightBase.GetFloat | GVRf/Framework/framework/src/main/java/org/gearvrf/GVRLightBase.java:197-200 | returns the stored float, or fails naming a key that is not there |
| Lights.LightBase.SetFloat | GVRf/Framework/framework/src/main/java/org/gearvrf/GVRLightBase.java:213-218 | the in-place write takes the store to PutFloat's result, or throws PutFloat's error with the store untouched |
| Lights.LightBase.GetVec3 | GVRf/Framework/framework/src/main/java/org/gearvrf/GVRLightBase.java:229-232 | returns the stored vec3, or fails naming a key that is not there |
| Lights.LightBase.SetVec3 | GVRf/Framework/framework/src/main/java/org/gearvrf/GVRLightBase.java:244-248 | the in-place write takes the store to PutVec3's result, or throws PutVec3's error with the store untouched |
| Lights.LightBase.GetVec4 | GVRf/Framework/framework/src/main/java/org/gearvrf/GVRLightBase.java:259-262 | returns the stored vec4, or fails naming a key that is not there |
| Lights.LightBase.SetVec4 | GVRf/Framework/framework/src/main/java/org/gearvrf/GVRLightBase.java:274-278 | the in-place write takes the store to PutVec4's result, or throws PutVec4's error with the store untouched |
| Lights.LightBase.OnDrawFrame | GVRf/Framework/framework/src/main/java/org/gearvrf/GVRLightBase.java:360-386 | the step-by-step reads and conditional writes give exactly DrawFrame's outcome and store, and the setVec3 calls it makes are, in order, exactly the writes DrawFrame lists; the ghost list `written` is appended next to each setVec3 call, so it records the calls made, by construction rather than by setVec3 itself |
| Lights.ParentLightStaysUnregistered | GVRf/Framework/framework/src/main/java/org/gearvrf/GVRLightBase.java:49-73 | a light built with a parent stays unregistered even after setOwnerObject(parent), which returns at once for the unchanged owner |

## Left out

- The `NativeLight` JNI bindings (GVRLightBase.java:393-418) are not modelled as code. The native light becomes the `store` field, and the native parent becomes the `nativeParent` field. `NativeLight.enable`/`disable` have no visible effect beyond the "enabled" uniform, so they are not modelled.
- Native getters on a missing uniform: what the native code does there is not visible. The model makes the read fail with `UniformNotFound`.
- Native setters on a new key: the model adds the key. This departs from the javadoc of `setFloat`, `setVec3` and `setVec4` (GVRLightBase.java:209-210, 241-242, 271-272), which says they throw if the uniform name is not found. The constructors (GVRLightBase.java:57-59) write three uniforms into a light whose native store is taken to be empty, which can only work if a setter adds keys; the setters' `@param key name of uniform to get` and `@throws exception if uniform name not found` lines are the getters' own; the rest of each setter's javadoc is its own.
- The native store of a new light is taken to be empty.
- The JOML matrix and quaternion math of `onDrawFrame` (GVRLightBase.java:366-377) is not modelled. The new world direction and position enter `OnDrawFrame` as a `Pose` parameter.
- The default orientation and its accessors (GVRLightBase.java:332-354, 388) are not modelled; they only feed that math.
- Lights.LightBase.OnDrawFrame: `frameTime` is accepted and not used, as in the source.
- Floats: 32-bit rounding is not modelled. A finite float is an exact real, and only NaN, the infinities and the comparisons `!=` and `<= 0` follow IEEE rules.
- `GVRContext.registerDrawFrameListener`/`unregisterDrawFrameListener` and the frame scheduler are not part of this model. Registration is a count of entries in the listener list: +1 on register, and −1 (never below 0) on unregister.
- `GVRComponent` is not part of this model. Its constructor and `setOwnerObject` are taken to do nothing but store the owner.
- `getLightID`, `getShaderSource`/`setShaderSource` and `getUniformDescriptor` (GVRLightBase.java:147-185, 323-326) are not modelled: they are accessors or native lookups with no logic. The descriptor itself is the `uniformDescriptor` field.
- Lights.LightBase.GetShaderStruct: `getClass().getSimpleName()` is a parameter `className`.
- ShaderStruct.IsIntType: `type.toLowerCase().startsWith("i")` is modelled as "the first character is i or I". Locale-dependent lower-casing is not modelled.
- Lights.LightBase.GetFloat, GetVec3 and GetVec4 take a non-null key. A null key passed to a native getter is not modelled.
- Only the space character counts as a space in the pattern, as `[ ]` says; tabs and newlines are ordinary junk.

## Findings

| source | as written | input that shows it | evidently intended | confidence | as-written member | corrected member |
|---|---|---|---|---|---|---|
| GVRf/Framework/framework/src/main/java/org/gearvrf/GVRLightBase.java:49-60 | the constructor with a parent stores the owner and sets the native parent, but never registers the light as a draw-frame listener; a later setOwnerObject(parent) returns at once because the owner is unchanged | `new GVRLightBase(ctx, obj)` with `obj` non-null: the light is attached but its world uniforms are never updated by onDrawFrame | register on construction with a non-null parent, as setOwnerObject does on a null to non-null change | low, not executed (depends on GVRComponent's constructor, which is not part of this model) | Lights.ParentLightStaysUnregistered | Lights.LightBase.WithParent |
