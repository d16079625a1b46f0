/**
 * GVRLightBase: a light component that can be attached to a scene object.
 * Its uniforms live in the native light (see module Uniforms); the Java side
 * keeps the owning scene object, tells the native light who its parent is,
 * and registers itself as a draw-frame listener when setOwnerObject gives it
 * an owner (a light built with a parent does not register) so that
 * every frame copies the owner's world pose into its world uniforms.
 */
module Lights {

  import opened Wrappers
  import opened Uniforms
  import ShaderStruct

  /** A scene object a light can be attached to; the light only needs its native handle. */
  class SceneObject {
    const nativeHandle: int

    constructor (nativeHandle: int)
      ensures this.nativeHandle == nativeHandle
    {
      this.nativeHandle := nativeHandle;
    }
  }

  /**
   * The uniform descriptor every light starts with,
   * "float enabled float3 world_position float3 world_direction", written entry by entry.
   */
  const DefaultDescriptor: string := "float enabled" + " " + "float3 world_position" + " " + "float3 world_direction"

  class LightBase {
    /** The scene object the light is attached to, or null. */
    var owner: SceneObject?
    /** The parent handle last given to the native light (0 for none). */
    var nativeParent: int
    /** How many times the light is in its context's list of draw-frame listeners. */
    var registrations: nat
    /** The uniforms held by the native light. */
    var store: Store
    var uniformDescriptor: string

    /** Attached exactly when registered once, and the native parent is the owner's handle or 0. */
    ghost predicate Valid()
      reads this
    {
      && registrations == (if owner == null then 0 else 1)
      && nativeParent == (if owner == null then 0 else owner.nativeHandle)
    }

    /** GVRLightBase(gvrContext): a detached light with the default uniforms. */
    constructor ()
      ensures Valid() && owner == null
      ensures store == Defaults && uniformDescriptor == DefaultDescriptor
    {
      owner, nativeParent, registrations := null, 0, 0;
      store := EmptyStore;
      uniformDescriptor := DefaultDescriptor;
      new;
      SetDefaults();
    }

    /**
     * GVRLightBase(gvrContext, parent) as written: the owner is stored and the
     * native parent set, but the light never registers as a draw-frame
     * listener, so an attached light starts out of its invariant.
     */
    constructor WithParentAsWritten(parent: SceneObject?)
      ensures owner == parent && registrations == 0
      ensures nativeParent == (if parent == null then 0 else parent.nativeHandle)
      ensures parent != null ==> !Valid()
      ensures store == Defaults && uniformDescriptor == DefaultDescriptor
    {
      owner, nativeParent, registrations := parent, 0, 0;
      store := EmptyStore;
      uniformDescriptor := DefaultDescriptor;
      new;
      if parent != null {
        nativeParent := parent.nativeHandle;
      }
      SetDefaults();
    }

    /** GVRLightBase(gvrContext, parent), registering when it is born attached, as setOwnerObject does. */
    constructor WithParent(parent: SceneObject?)
      ensures Valid() && owner == parent
      ensures store == Defaults && uniformDescriptor == DefaultDescriptor
    {
      owner, nativeParent, registrations := parent, 0, 0;
      store := EmptyStore;
      uniformDescriptor := DefaultDescriptor;
      new;
      if parent != null {
        registrations := 1;
        nativeParent := parent.nativeHandle;
      }
      SetDefaults();
    }

    /** The constructors' three writes: enabled = 1, world_position = (0, 0, 0), world_direction = (0, 0, 1). */
    method SetDefaults()
      requires store == EmptyStore
      modifies this`store
      ensures store == Defaults
    {
      var done := SetFloat(Some(Enabled), Finite(1.0));
      done := SetVec3(Some(WorldPosition), Finite(0.0), Finite(0.0), Finite(0.0));
      done := SetVec3(Some(WorldDirection), Finite(0.0), Finite(0.0), Finite(1.0));
      DefaultsBySetters();
    }

    /**
     * setOwnerObject: nothing happens when the owner does not change; otherwise
     * the light registers on a null to non-null change, unregisters on a
     * non-null to null change, points the native parent at the new owner (0 for
     * none) and stores the new owner.
     */
    method SetOwnerObject(newOwner: SceneObject?)
      modifies this`owner, this`nativeParent, this`registrations
      ensures owner == newOwner
      ensures old(owner) == newOwner ==> nativeParent == old(nativeParent) && registrations == old(registrations)
      ensures old(owner) != newOwner ==> nativeParent == (if newOwner == null then 0 else newOwner.nativeHandle)
      ensures old(owner) == null && newOwner != null ==> registrations == old(registrations) + 1
      ensures old(owner) != null && newOwner == null ==> registrations == if old(registrations) == 0 then 0 else old(registrations) - 1
      ensures (old(owner) == null) == (newOwner == null) ==> registrations == old(registrations)
      ensures old(Valid()) ==> Valid()
    {
      if owner == newOwner {
        return;
      }
      if newOwner != null {
        if owner == null {
          registrations := registrations + 1;
        }
        nativeParent := newOwner.nativeHandle;
      } else {
        if owner != null {
          // unregistering removes one occurrence, if there is one
          registrations := if registrations == 0 then 0 else registrations - 1;
        }
        nativeParent := 0;
      }
      owner := newOwner;
    }

    /** enable(): "enabled" becomes 1. */
    method Enable()
      modifies this`store
      ensures store == Switched(old(store), true)
    {
      var done := SetFloat(Some(Enabled), Finite(1.0));
    }

    /** disable(): "enabled" becomes 0. */
    method Disable()
      modifies this`store
      ensures store == Switched(old(store), false)
    {
      var done := SetFloat(Some(Enabled), Finite(0.0));
    }

    /** getPosition(): the "world_position" uniform. */
    method GetPosition() returns (r: Result<Vec3, Error>)
      ensures r.Ok? <==> WorldPosition in store.vec3s
      ensures r.Ok? ==> r.value == store.vec3s[WorldPosition]
    {
      r := GetVec3(WorldPosition);
    }

    /** setPosition(x, y, z): writes "world_position", whose key always passes the check. */
    method SetPosition(x: Float, y: Float, z: Float)
      modifies this`store
      ensures PutVec3(old(store), Some(WorldPosition), Vec3(x, y, z)) == Ok(store)
    {
      var done := SetVec3(Some(WorldPosition), x, y, z);
    }

    method GetFloat(key: string) returns (r: Result<Float, Error>)
      ensures r.Ok? <==> key in store.floats
      ensures r.Ok? ==> r.value == store.floats[key]
      ensures r.Err? ==> r.error == UniformNotFound(key)
    {
      r := FloatOf(store, key);
    }

    /** setFloat: a null or empty key, then a NaN or infinite value, throws before the store is touched. */
    method SetFloat(key: Option<string>, value: Float) returns (r: Result<(), Error>)
      modifies this`store
      ensures r.Ok? ==> PutFloat(old(store), key, value) == Ok(store)
      ensures r.Err? ==> PutFloat(old(store), key, value) == Err(r.error) && store == old(store)
    {
      if key.None? || |key.value| == 0 {
        return Err(InvalidArgument("key"));
      }
      if !value.Finite? {
        return Err(InvalidArgument("value"));
      }
      store := store.(floats := store.floats[key.value := value]);
      r := Ok(());
    }

    method GetVec3(key: string) returns (r: Result<Vec3, Error>)
      ensures r.Ok? <==> key in store.vec3s
      ensures r.Ok? ==> r.value == store.vec3s[key]
      ensures r.Err? ==> r.error == UniformNotFound(key)
    {
      r := Vec3Of(store, key);
    }

    /** setVec3: a null or empty key throws before the store is touched. */
    method SetVec3(key: Option<string>, x: Float, y: Float, z: Float) returns (r: Result<(), Error>)
      modifies this`store
      ensures r.Ok? ==> PutVec3(old(store), key, Vec3(x, y, z)) == Ok(store)
      ensures r.Err? ==> PutVec3(old(store), key, Vec3(x, y, z)) == Err(r.error) && store == old(store)
    {
      if key.None? || |key.value| == 0 {
        return Err(InvalidArgument("key"));
      }
      store := store.(vec3s := store.vec3s[key.value := Vec3(x, y, z)]);
      r := Ok(());
    }

    method GetVec4(key: string) returns (r: Result<Vec4, Error>)
      ensures r.Ok? <==> key in store.vec4s
      ensures r.Ok? ==> r.value == store.vec4s[key]
      ensures r.Err? ==> r.error == UniformNotFound(key)
    {
      r := Vec4Of(store, key);
    }

    /** setVec4: a null or empty key throws before the store is touched. */
    method SetVec4(key: Option<string>, x: Float, y: Float, z: Float, w: Float) returns (r: Result<(), Error>)
      modifies this`store
      ensures r.Ok? ==> PutVec4(old(store), key, Vec4(x, y, z, w)) == Ok(store)
      ensures r.Err? ==> PutVec4(old(store), key, Vec4(x, y, z, w)) == Err(r.error) && store == old(store)
    {
      if key.None? || |key.value| == 0 {
        return Err(InvalidArgument("key"));
      }
      store := store.(vec4s := store.vec4s[key.value := Vec4(x, y, z, w)]);
      r := Ok(());
    }

    /**
     * getShaderStruct: the GLSL struct for this light's uniform descriptor;
     * `className` is the simple name of the light's runtime class.
     */
    method GetShaderStruct(className: string) returns (text: string)
      ensures text == ShaderStruct.StructText(className, uniformDescriptor)
      ensures uniformDescriptor == DefaultDescriptor ==>
                text == "struct Struct" + className + " {\n"
                        + ("float enabled;\n" + ("   vec3 world_position;\n" + "   vec3 world_direction;\n"))
                        + "};\n"
    {
      text := ShaderStruct.GetShaderStruct(className, uniformDescriptor);
      if uniformDescriptor == DefaultDescriptor {
        DefaultShaderStruct(className);
      }
    }

    /**
     * onDrawFrame: `pose` is the world direction and position computed from
     * the owner's model matrix and the default orientation; `frameTime` is
     * not used. `written` records, in order, the uniforms handed to setVec3.
     */
    method OnDrawFrame(frameTime: Float, pose: Pose) returns (r: Result<(), Error>, ghost written: seq<string>)
      modifies this`store
      ensures r == DrawFrame(old(store), owner != null, pose).status
      ensures store == DrawFrame(old(store), owner != null, pose).store
      ensures written == DrawFrame(old(store), owner != null, pose).written
    {
      written := [];
      var enabled := GetFloat(Enabled);
      if enabled.Err? {
        return Err(enabled.error), written;
      }
      if AtMostZero(enabled.value) || owner == null {
        return Ok(()), written;
      }
      var odir := GetVec3(WorldDirection);
      if odir.Err? {
        return Err(odir.error), written;
      }
      var opos := GetVec3(WorldPosition);
      if opos.Err? {
        return Err(opos.error), written;
      }
      var done: Result<(), Error>;
      if Vec3Differs(odir.value, pose.direction) {
        done := SetVec3(Some(WorldDirection), pose.direction.x, pose.direction.y, pose.direction.z);
        written := written + [WorldDirection];
      }
      if Vec3Differs(opos.value, pose.position) {
        done := SetVec3(Some(WorldPosition), pose.position.x, pose.position.y, pose.position.z);
        written := written + [WorldPosition];
      }
      r := Ok(());
    }
  }

  /**
   * The constructor as written leaves a light built with a parent
   * unregistered, and setting the same owner again does not repair it, since
   * setOwnerObject returns at once when the owner is unchanged.
   */
  method ParentLightStaysUnregistered(parent: SceneObject) returns (light: LightBase)
    ensures light.owner == parent && light.registrations == 0 && !light.Valid()
  {
    light := new LightBase.WithParentAsWritten(parent);
    light.SetOwnerObject(parent);
  }

  /** The entries of the default descriptor. */
  const DefaultFields: seq<ShaderStruct.Field> :=
    [ShaderStruct.Field("float", "", "enabled"),
     ShaderStruct.Field("float", "3", "world_position"),
     ShaderStruct.Field("float", "3", "world_direction")]

  /** Three entries are joined with a space between each two. */
  lemma JoinThree(a: ShaderStruct.Field, b: ShaderStruct.Field, c: ShaderStruct.Field)
    ensures ShaderStruct.Join([a, b, c])
      == ShaderStruct.EntryText(a) + " " + ShaderStruct.EntryText(b) + " " + ShaderStruct.EntryText(c)
  {
    assert [a, b, c][1..] == [b, c];
    assert [b, c][1..] == [c];
    assert ShaderStruct.Join([c]) == ShaderStruct.EntryText(c);
  }

  /** Three entries give their three lines, in order. */
  lemma BodyThree(a: ShaderStruct.Field, b: ShaderStruct.Field, c: ShaderStruct.Field)
    ensures ShaderStruct.Body([a, b, c])
      == ShaderStruct.FieldLine(a) + (ShaderStruct.FieldLine(b) + ShaderStruct.FieldLine(c))
  {
    assert [a, b, c][1..] == [b, c];
    assert [b, c][1..] == [c];
    assert ShaderStruct.Body([c]) == ShaderStruct.FieldLine(c) + "";
    assert ShaderStruct.FieldLine(c) + "" == ShaderStruct.FieldLine(c);
  }

  /** The text of an entry without a size: its type, a space, its name. */
  lemma ScalarEntry(typ: string, name: string)
    ensures ShaderStruct.EntryText(ShaderStruct.Field(typ, "", name)) == typ + " " + name
  {
    assert typ + "" == typ;
  }

  /** The text of an entry with a size: its type and size, a space, its name. */
  lemma SizedEntry(typ: string, size: string, name: string)
    ensures ShaderStruct.EntryText(ShaderStruct.Field(typ, size, name)) == typ + size + " " + name
  {
  }

  /** The three default entries, written back as descriptor text. */
  lemma EnabledEntry()
    ensures ShaderStruct.EntryText(DefaultFields[0]) == "float enabled"
  {
    ScalarEntry("float", "enabled");
  }

  lemma PositionEntry()
    ensures ShaderStruct.EntryText(DefaultFields[1]) == "float3 world_position"
  {
    SizedEntry("float", "3", "world_position");
  }

  lemma DirectionEntry()
    ensures ShaderStruct.EntryText(DefaultFields[2]) == "float3 world_direction"
  {
    SizedEntry("float", "3", "world_direction");
  }

  /** The default descriptor is the text of the default entries. */
  lemma DefaultJoin()
    ensures ShaderStruct.Join(DefaultFields) == DefaultDescriptor
  {
    var f := DefaultFields;
    assert f == [f[0], f[1], f[2]];
    JoinThree(f[0], f[1], f[2]);
    EnabledEntry();
    PositionEntry();
    DirectionEntry();
  }

  /** Each default entry is one the pattern accepts on its own. */
  lemma DefaultWellFormed()
    ensures forall i :: 0 <= i < |DefaultFields| ==> ShaderStruct.WellFormed(DefaultFields[i])
  {
    var f := DefaultFields;
    assert ShaderStruct.WellFormed(f[0]);
    assert ShaderStruct.WellFormed(f[1]);
    assert ShaderStruct.WellFormed(f[2]);
  }

  /** Scanning the default descriptor finds exactly the default entries. */
  lemma DefaultDescriptorScans()
    ensures ShaderStruct.Scan(DefaultDescriptor, 0) == DefaultFields
  {
    DefaultJoin();
    DefaultWellFormed();
    ShaderStruct.ScanJoin(DefaultFields);
  }

  /** An entry without a size is written with its own type. */
  lemma ScalarLine(typ: string, name: string)
    ensures ShaderStruct.FieldLine(ShaderStruct.Field(typ, "", name)) == typ + " " + name + ";\n"
  {
  }

  /** The three default entries, written as field lines. */
  lemma EnabledLine()
    ensures ShaderStruct.FieldLine(DefaultFields[0]) == "float enabled;\n"
  {
    ScalarLine("float", "enabled");
  }

  lemma PositionLine()
    ensures ShaderStruct.FieldLine(DefaultFields[1]) == "   vec3 world_position;\n"
  {
    VectorLine("world_position");
  }

  lemma DirectionLine()
    ensures ShaderStruct.FieldLine(DefaultFields[2]) == "   vec3 world_direction;\n"
  {
    VectorLine("world_direction");
  }

  /** A float entry of size 3 is written as a GLSL vec3. */
  lemma VectorLine(name: string)
    ensures ShaderStruct.FieldLine(ShaderStruct.Field("float", "3", name)) == "   vec3 " + name + ";\n"
  {
    assert ShaderStruct.GlslType(ShaderStruct.Field("float", "3", name)) == "   vec3";
  }

  /**
   * The default descriptor gives exactly three fields, in order:
   * `float enabled;`, `   vec3 world_position;` and `   vec3 world_direction;`.
   */
  lemma DefaultShaderStruct(className: string)
    ensures ShaderStruct.StructText(className, DefaultDescriptor)
      == "struct Struct" + className + " {\n"
         + ("float enabled;\n" + ("   vec3 world_position;\n" + "   vec3 world_direction;\n"))
         + "};\n"
  {
    DefaultDescriptorScans();
    var f := DefaultFields;
    assert f == [f[0], f[1], f[2]];
    BodyThree(f[0], f[1], f[2]);
    EnabledLine();
    PositionLine();
    DirectionLine();
  }
}
