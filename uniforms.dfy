/**
 * The uniform values of a light as its native half keeps them: one dictionary
 * per uniform kind (float, vec3, vec4), keyed by uniform name; the checks the
 * Java setters make before they hand a write to the native light; and the
 * update that onDrawFrame makes to the world position and direction.
 */
module Uniforms {

  import opened Wrappers

  /**
   * A Java float: a finite value, NaN, or an infinity. The real number of a
   * finite value is kept exactly; rounding to 32 bits is not modelled.
   */
  datatype Float = Finite(r: real) | NaN | Infinite(negative: bool)

  /** Java's `a != b` on floats: NaN differs from every value, itself included. */
  predicate Differs(a: Float, b: Float)
    ensures Differs(a, b) <==> a != b || a.NaN?
  {
    a.NaN? || b.NaN? || a != b
  }

  /**
   * Java's `a <= 0.0f`: NaN compares false, so a NaN "enabled" leaves a light
   * on; negative infinity is at most zero and positive infinity is not.
   */
  predicate AtMostZero(a: Float)
    ensures a.NaN? ==> !AtMostZero(a)
    ensures a.Infinite? ==> (AtMostZero(a) <==> a.negative)
    ensures a.Finite? ==> (AtMostZero(a) <==> a.r <= 0.0)
  {
    match a
    case Finite(r) => r <= 0.0
    case NaN => false
    case Infinite(negative) => negative
  }

  datatype Vec3 = Vec3(x: Float, y: Float, z: Float)

  datatype Vec4 = Vec4(x: Float, y: Float, z: Float, w: Float)

  predicate HasNaN(v: Vec3)
  {
    v.x.NaN? || v.y.NaN? || v.z.NaN?
  }

  /** onDrawFrame's test that a cached vector and a new one differ in some component. */
  predicate Vec3Differs(a: Vec3, b: Vec3)
    ensures Vec3Differs(a, b) <==> a != b || HasNaN(a)
  {
    Differs(a.x, b.x) || Differs(a.y, b.y) || Differs(a.z, b.z)
  }

  /** What a light call can throw: a rejected argument, named by its parameter, or an unknown uniform. */
  datatype Error = InvalidArgument(param: string) | UniformNotFound(key: string)

  /** The uniforms held by the native light. */
  datatype Store = Store(floats: map<string, Float>, vec3s: map<string, Vec3>, vec4s: map<string, Vec4>)

  /** The uniforms of a native light just created. */
  const EmptyStore: Store := Store(map[], map[], map[])

  const Enabled: string := "enabled"
  const WorldPosition: string := "world_position"
  const WorldDirection: string := "world_direction"

  // ---------------------------------------------------------------------------
  // Reads: getFloat, getVec3, getVec4 throw when the uniform is not there

  function FloatOf(st: Store, key: string): (r: Result<Float, Error>)
    ensures r.Ok? <==> key in st.floats
    ensures r.Err? ==> r.error == UniformNotFound(key)
  {
    if key in st.floats then Ok(st.floats[key]) else Err(UniformNotFound(key))
  }

  function Vec3Of(st: Store, key: string): (r: Result<Vec3, Error>)
    ensures r.Ok? <==> key in st.vec3s
    ensures r.Err? ==> r.error == UniformNotFound(key)
  {
    if key in st.vec3s then Ok(st.vec3s[key]) else Err(UniformNotFound(key))
  }

  function Vec4Of(st: Store, key: string): (r: Result<Vec4, Error>)
    ensures r.Ok? <==> key in st.vec4s
    ensures r.Err? ==> r.error == UniformNotFound(key)
  {
    if key in st.vec4s then Ok(st.vec4s[key]) else Err(UniformNotFound(key))
  }

  // ---------------------------------------------------------------------------
  // Writes: setFloat, setVec3, setVec4 after their argument checks

  /** checkStringNotNullOrEmpty: the key is neither null nor "". */
  predicate ValidKey(key: Option<string>)
    ensures ValidKey(key) <==> key.Some? && |key.value| > 0
  {
    key.Some? && key.value != ""
  }

  /**
   * setFloat: the key is checked first, then the value must be finite; a
   * write that passes both changes that one float uniform and nothing else.
   */
  function PutFloat(st: Store, key: Option<string>, value: Float): (r: Result<Store, Error>)
    ensures !ValidKey(key) ==> r == Err(InvalidArgument("key"))
    ensures ValidKey(key) && !value.Finite? ==> r == Err(InvalidArgument("value"))
    ensures ValidKey(key) && value.Finite? ==> r.Ok? && FloatOf(r.value, key.value) == Ok(value)
    ensures r.Ok? ==> r.value.floats - {key.value} == st.floats - {key.value}
    ensures r.Ok? ==> r.value.vec3s == st.vec3s && r.value.vec4s == st.vec4s
  {
    if !ValidKey(key) then Err(InvalidArgument("key"))
    else if !value.Finite? then Err(InvalidArgument("value"))
    else Ok(st.(floats := st.floats[key.value := value]))
  }

  /** setVec3: only the key is checked; the components may be NaN or infinite. */
  function PutVec3(st: Store, key: Option<string>, v: Vec3): (r: Result<Store, Error>)
    ensures !ValidKey(key) ==> r == Err(InvalidArgument("key"))
    ensures ValidKey(key) ==> r.Ok? && Vec3Of(r.value, key.value) == Ok(v)
    ensures r.Ok? ==> r.value.vec3s - {key.value} == st.vec3s - {key.value}
    ensures r.Ok? ==> r.value.floats == st.floats && r.value.vec4s == st.vec4s
  {
    if !ValidKey(key) then Err(InvalidArgument("key"))
    else Ok(st.(vec3s := st.vec3s[key.value := v]))
  }

  /** setVec4: only the key is checked; the components may be NaN or infinite. */
  function PutVec4(st: Store, key: Option<string>, v: Vec4): (r: Result<Store, Error>)
    ensures !ValidKey(key) ==> r == Err(InvalidArgument("key"))
    ensures ValidKey(key) ==> r.Ok? && Vec4Of(r.value, key.value) == Ok(v)
    ensures r.Ok? ==> r.value.vec4s - {key.value} == st.vec4s - {key.value}
    ensures r.Ok? ==> r.value.floats == st.floats && r.value.vec3s == st.vec3s
  {
    if !ValidKey(key) then Err(InvalidArgument("key"))
    else Ok(st.(vec4s := st.vec4s[key.value := v]))
  }

  /** Reading back a float uniform gives the last value written to it, whatever was there before. */
  lemma PutFloatLastWins(st: Store, key: string, a: Float, b: Float)
    requires key != "" && a.Finite?
    ensures PutFloat(PutFloat(st, Some(key), a).value, Some(key), b) == PutFloat(st, Some(key), b)
  {
    if b.Finite? {
      var once, twice := PutFloat(st, Some(key), b).value, PutFloat(PutFloat(st, Some(key), a).value, Some(key), b).value;
      assert twice.floats == once.floats;
    }
  }

  /** A vec3 write that repeats the stored value leaves the store as it was. */
  lemma PutVec3Same(st: Store, key: string)
    requires key in st.vec3s && key != ""
    ensures PutVec3(st, Some(key), st.vec3s[key]) == Ok(st)
  {
    assert PutVec3(st, Some(key), st.vec3s[key]).value.vec3s == st.vec3s;
  }

  // ---------------------------------------------------------------------------
  // The light's own uniforms

  /** The uniforms a constructor leaves: enabled = 1, world_position = (0, 0, 0), world_direction = (0, 0, 1). */
  const Defaults: Store :=
    Store(map[Enabled := Finite(1.0)],
          map[WorldPosition := Vec3(Finite(0.0), Finite(0.0), Finite(0.0)),
              WorldDirection := Vec3(Finite(0.0), Finite(0.0), Finite(1.0))],
          map[])

  /** The constructors' three writes, made through the setters' checks on a new native light, give Defaults. */
  lemma DefaultsBySetters()
    ensures PutFloat(EmptyStore, Some(Enabled), Finite(1.0)).Ok?
    ensures var s1 := PutFloat(EmptyStore, Some(Enabled), Finite(1.0)).value;
            var s2 := PutVec3(s1, Some(WorldPosition), Vec3(Finite(0.0), Finite(0.0), Finite(0.0))).value;
            PutVec3(s2, Some(WorldDirection), Vec3(Finite(0.0), Finite(0.0), Finite(1.0))) == Ok(Defaults)
  {
    var s1 := PutFloat(EmptyStore, Some(Enabled), Finite(1.0)).value;
    var s2 := PutVec3(s1, Some(WorldPosition), Vec3(Finite(0.0), Finite(0.0), Finite(0.0))).value;
    var s3 := PutVec3(s2, Some(WorldDirection), Vec3(Finite(0.0), Finite(0.0), Finite(1.0))).value;
    assert s3.vec3s == Defaults.vec3s;
  }

  /** enable() and disable(): "enabled" set to 1 or 0 through setFloat, whose checks pass. */
  function Switched(st: Store, on: bool): (r: Store)
    ensures PutFloat(st, Some(Enabled), Finite(if on then 1.0 else 0.0)) == Ok(r)
    ensures FloatOf(r, Enabled).Ok? && (AtMostZero(FloatOf(r, Enabled).value) <==> !on)
  {
    st.(floats := st.floats[Enabled := Finite(if on then 1.0 else 0.0)])
  }

  // ---------------------------------------------------------------------------
  // onDrawFrame

  /** The world direction and position the owner's transform gives the light in this frame. */
  datatype Pose = Pose(direction: Vec3, position: Vec3)

  /** One onDrawFrame call: whether it threw, the uniforms after it, and the uniforms it wrote, in order. */
  datatype Frame = Frame(status: Result<(), Error>, store: Store, written: seq<string>)

  /**
   * Writes `current` to a world uniform through setVec3 when it differs from
   * the value `cached` read from that uniform: afterwards the uniform holds
   * `current` and nothing else has changed, and the write is skipped exactly
   * when the two are equal and free of NaN.
   */
  function Refresh(st: Store, key: string, cached: Vec3, current: Vec3): (r: Frame)
    requires key != "" && Vec3Of(st, key) == Ok(cached)
    ensures r.status.Ok?
    ensures Vec3Of(r.store, key) == Ok(current)
    ensures r.store.vec3s - {key} == st.vec3s - {key} && r.store.floats == st.floats && r.store.vec4s == st.vec4s
    ensures r.written == [] <==> cached == current && !HasNaN(cached)
    ensures r.written != [] ==> r.written == [key]
    ensures r.written == [] ==> r.store == st
  {
    if Vec3Differs(cached, current) then Frame(Ok(()), PutVec3(st, Some(key), current).value, [key])
    else Frame(Ok(()), st, [])
  }

  /**
   * onDrawFrame: reads "enabled" (throwing when it is missing), stops when the
   * light is off or not attached, reads the cached direction and position, and
   * writes each one only when the new value differs from the cached one.
   */
  function DrawFrame(st: Store, attached: bool, pose: Pose): (f: Frame)
    ensures f.status.Err? ==> f.store == st && f.written == []
    ensures f.status.Err? <==>
      || Enabled !in st.floats
      || (!AtMostZero(st.floats[Enabled]) && attached && (WorldDirection !in st.vec3s || WorldPosition !in st.vec3s))
  {
    match FloatOf(st, Enabled)
    case Err(e) => Frame(Err(e), st, [])
    case Ok(enabled) =>
      if AtMostZero(enabled) || !attached then Frame(Ok(()), st, [])
      else
        match Vec3Of(st, WorldDirection)
        case Err(e) => Frame(Err(e), st, [])
        case Ok(odir) =>
          match Vec3Of(st, WorldPosition)
          case Err(e) => Frame(Err(e), st, [])
          case Ok(opos) =>
            var d := Refresh(st, WorldDirection, odir, pose.direction);
            var p := Refresh(d.store, WorldPosition, opos, pose.position);
            Frame(Ok(()), p.store, d.written + p.written)
  }

  /** A light that is off or not attached neither throws past the "enabled" read nor writes anything. */
  lemma DrawFrameIdle(st: Store, attached: bool, pose: Pose)
    requires Enabled in st.floats
    requires AtMostZero(st.floats[Enabled]) || !attached
    ensures DrawFrame(st, attached, pose) == Frame(Ok(()), st, [])
  {
  }

  /** A disabled light's frame changes nothing. */
  lemma DisabledFrameIsIdle(st: Store, attached: bool, pose: Pose)
    ensures DrawFrame(Switched(st, false), attached, pose) == Frame(Ok(()), Switched(st, false), [])
  {
    DrawFrameIdle(Switched(st, false), attached, pose);
  }

  /** The uniforms of the light on when it is switched on and attached, with both world uniforms present. */
  predicate Live(st: Store, attached: bool)
  {
    && Enabled in st.floats && !AtMostZero(st.floats[Enabled]) && attached
    && WorldDirection in st.vec3s && WorldPosition in st.vec3s
  }

  /**
   * A live frame writes the direction exactly when it differs from the cached
   * one, then the position exactly when it differs; afterwards both world
   * uniforms hold the pose, and every other uniform is as it was.
   */
  lemma DrawFrameWrites(st: Store, attached: bool, pose: Pose)
    requires Live(st, attached)
    ensures var f := DrawFrame(st, attached, pose);
      && f.status.Ok?
      && f.written == (if Vec3Differs(st.vec3s[WorldDirection], pose.direction) then [WorldDirection] else [])
                      + (if Vec3Differs(st.vec3s[WorldPosition], pose.position) then [WorldPosition] else [])
      && Vec3Of(f.store, WorldDirection) == Ok(pose.direction)
      && Vec3Of(f.store, WorldPosition) == Ok(pose.position)
      && f.store.vec3s - {WorldDirection, WorldPosition} == st.vec3s - {WorldDirection, WorldPosition}
      && f.store.floats == st.floats && f.store.vec4s == st.vec4s
  {
    var f := DrawFrame(st, attached, pose);
    var d := Refresh(st, WorldDirection, st.vec3s[WorldDirection], pose.direction);
    var p := Refresh(d.store, WorldPosition, st.vec3s[WorldPosition], pose.position);
    assert f.store == p.store;
    assert d.store.vec3s - {WorldDirection} == st.vec3s - {WorldDirection};
  }

  /** A second frame with the same NaN-free pose finds nothing to write. */
  lemma DrawFrameSettles(st: Store, attached: bool, pose: Pose)
    requires DrawFrame(st, attached, pose).status.Ok?
    requires !HasNaN(pose.direction) && !HasNaN(pose.position)
    ensures var f := DrawFrame(st, attached, pose);
      DrawFrame(f.store, attached, pose) == Frame(Ok(()), f.store, [])
  {
    var f := DrawFrame(st, attached, pose);
    if Live(st, attached) {
      DrawFrameWrites(st, attached, pose);
      assert Live(f.store, attached);
      DrawFrameWrites(f.store, attached, pose);
      var g := DrawFrame(f.store, attached, pose);
      assert g.store.vec3s == f.store.vec3s;
    }
  }
}
